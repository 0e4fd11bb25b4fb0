/** Dynamic batching: the greedy microbatch loop. */
module DynamicBatching {
  import opened Wrappers
  import opened Arith
  import opened Seqs
  import opened Batches

  // The loop cuts a chunk into microbatches under a token budget, looking at all shards at once.

  datatype DynamicError = NoSuchRow | ZeroRound | RowTooLong

  datatype Layout = Layout(indices: seq<seq<Range>>, lengths: seq<seq<nat>>)

  // ---------------------------------------------------------------- lengths of a position over all shards

  predicate HasRow<T>(shards: seq<seq<Row<T>>>, pos: nat) {
    forall s :: 0 <= s < |shards| ==> pos < |shards[s]|
  }

  // The longest row at a position of the first n shards.
  function MaxAt<T>(shards: seq<seq<Row<T>>>, pos: nat, n: nat): nat
    requires HasRow(shards, pos) && n <= |shards|
  {
    if n == 0 then 0 else Max(MaxAt(shards, pos, n - 1), shards[n - 1][pos].length)
  }

  lemma {:induction false} MaxAtBounds<T>(shards: seq<seq<Row<T>>>, pos: nat, n: nat, s: nat)
    requires HasRow(shards, pos) && s < n <= |shards|
    ensures shards[s][pos].length <= MaxAt(shards, pos, n)
  {
    if s < n - 1 {
      MaxAtBounds(shards, pos, n - 1, s);
    }
  }

  // r is the least multiple of `round` at or above the length, or the width where that is not below it.
  ghost predicate RoundsUp(r: nat, length: nat, round: nat, width: nat)
    requires round > 0
  {
    && r <= width
    && (r < width ==> r % round == 0 && length <= r < length + round)
    && (r == width > 0 ==> width - 1 - (width - 1) % round < length)
  }

  function Rounded(length: nat, round: nat, width: nat): (r: nat)
    requires round > 0
    ensures Min(length, width) <= r <= width
    ensures RoundsUp(r, length, round, width)
  {
    NextMultiple(length, round, width);
    Min(((length + round - 1) / round) * round, width)
  }

  lemma NextMultiple(length: nat, round: nat, width: nat)
    requires round > 0
    ensures var next := ((length + round - 1) / round) * round;
            && length <= next < length + round && next % round == 0
            && (next >= width > 0 ==> width - 1 - (width - 1) % round < length)
  {
    CeilDiv(length, round);
    var q := (length + round - 1) / round;
    DivModUnique(q * round, round, q, 0);
    if q * round >= width > 0 {
      BelowIsLess(width - 1, q, round);
    }
  }

  // The multiples up to something below q * k end at or below (q - 1) * k.
  lemma BelowIsLess(a: nat, q: nat, k: nat)
    requires k > 0 && a < q * k
    ensures a - a % k <= q * k - k
  {
    QuotientBelow(a, q, k);
    MulStrict(a / k, q, k);
    assert a - a % k == (a / k) * k;
  }

  lemma RoundedMonotone(a: nat, b: nat, round: nat, width: nat)
    requires round > 0 && a <= b
    ensures Rounded(a, round, width) <= Rounded(b, round, width)
  {
    var p, q := (a + round - 1) / round, (b + round - 1) / round;
    QuotientsGrow(a + round - 1, b + round - 1, round);
    MulMono(p, q, round);
  }

  lemma QuotientsGrow(a: nat, b: nat, k: nat)
    requires k > 0 && a <= b
    ensures a / k <= b / k
  {
    assert a == (a / k) * k + a % k && b == (b / k) * k + b % k;
    if b / k < a / k {
      MulStrict(b / k, a / k, k);
    }
  }

  // Length, multiple and width leave one rounded length.
  lemma RoundsUpIsUnique(r: nat, r': nat, length: nat, round: nat, width: nat)
    requires round > 0 && RoundsUp(r, length, round, width) && RoundsUp(r', length, round, width)
    ensures r == r'
  {
    if r < width && r' < width {
      OneMultipleInReach(r, r', length, round);
    } else if r < width {
      MultipleBelow(r, width - 1, round);
    } else if r' < width {
      MultipleBelow(r', width - 1, round);
    }
  }

  lemma OneMultipleInReach(r: nat, r': nat, length: nat, k: nat)
    requires k > 0 && r % k == 0 && r' % k == 0 && length <= r < length + k && length <= r' < length + k
    ensures r == r'
  {
    var q, q' := r / k, r' / k;
    assert r == q * k && r' == q' * k;
    if q < q' {
      MulStrict(q, q', k);
    } else if q' < q {
      MulStrict(q', q, k);
    }
  }

  lemma MultipleBelow(r: nat, a: nat, k: nat)
    requires k > 0 && r % k == 0 && r <= a
    ensures r <= a - a % k
  {
    QuotientsGrow(r, a, k);
    MulMono(r / k, a / k, k);
    assert r == (r / k) * k && a == (a / k) * k + a % k;
  }

  // No assertion of the loop fails at this position.
  predicate Fits<T>(shards: seq<seq<Row<T>>>, pos: nat, round: nat, width: nat, budget: int) {
    HasRow(shards, pos) && round > 0 && Rounded(MaxAt(shards, pos, |shards|), round, width) <= budget
  }

  ghost predicate AllFit<T>(shards: seq<seq<Row<T>>>, start: nat, n: nat, round: nat, width: nat, budget: int) {
    forall pos :: start <= pos < start + n ==> Fits(shards, pos, round, width, budget)
  }

  // The rounded length of a position, 0 where the loop would have failed.
  function RoundedAt<T>(shards: seq<seq<Row<T>>>, pos: nat, round: nat, width: nat): nat {
    if round > 0 && HasRow(shards, pos) then Rounded(MaxAt(shards, pos, |shards|), round, width) else 0
  }

  ghost function RoundedLengths<T>(shards: seq<seq<Row<T>>>, start: nat, n: nat, round: nat, width: nat): (r: seq<nat>)
    ensures |r| == n && forall i :: 0 <= i < n ==> r[i] == RoundedAt(shards, start + i, round, width)
  {
    seq<nat>(n, i requires 0 <= i < n => RoundedAt(shards, start + i, round, width))
  }

  // ---------------------------------------------------------------- what a recorded length is, read off the rows

  // The longest real length at the positions from lo to hi over all shards.
  ghost predicate IsLongest<T>(shards: seq<seq<Row<T>>>, lo: nat, hi: nat, longest: nat) {
    && (forall s, pos :: 0 <= s < |shards| && lo <= pos < hi && pos < |shards[s]| ==> shards[s][pos].length <= longest)
    && (longest > 0 ==>
          exists s, pos :: 0 <= s < |shards| && lo <= pos < hi && pos < |shards[s]| && shards[s][pos].length == longest)
  }

  // The length to record for these positions: their longest real length, rounded up.
  ghost predicate IsRecorded<T>(shards: seq<seq<Row<T>>>, lo: nat, hi: nat, round: nat, width: nat, r: nat) {
    if lo >= hi then r == 0
    else round > 0 && exists longest :: IsLongest(shards, lo, hi, longest) && RoundsUp(r, longest, round, width)
  }

  lemma RecordedIsUnique<T>(shards: seq<seq<Row<T>>>, lo: nat, hi: nat, round: nat, width: nat, r: nat, r': nat)
    requires IsRecorded(shards, lo, hi, round, width, r) && IsRecorded(shards, lo, hi, round, width, r')
    ensures r == r'
  {
    if lo < hi {
      hide RoundsUp;
      var longest :| IsLongest(shards, lo, hi, longest) && RoundsUp(r, longest, round, width);
      var longest' :| IsLongest(shards, lo, hi, longest') && RoundsUp(r', longest', round, width);
      RoundsUpIsUnique(r, r', longest, round, width);
    }
  }

  lemma {:induction false} MaxAtIsReached<T>(shards: seq<seq<Row<T>>>, pos: nat, n: nat)
    requires HasRow(shards, pos) && n <= |shards|
    ensures MaxAt(shards, pos, n) > 0 ==> exists s :: 0 <= s < n && shards[s][pos].length == MaxAt(shards, pos, n)
  {
    if n > 0 {
      MaxAtIsReached(shards, pos, n - 1);
    }
  }

  // A position whose longest row is the longest of all positions from lo to hi.
  lemma {:induction false} LongestPosition<T>(shards: seq<seq<Row<T>>>, lo: nat, hi: nat) returns (j: nat)
    requires lo < hi && forall pos :: lo <= pos < hi ==> HasRow(shards, pos)
    ensures lo <= j < hi && IsLongest(shards, lo, hi, MaxAt(shards, j, |shards|))
    ensures forall pos :: lo <= pos < hi ==> MaxAt(shards, pos, |shards|) <= MaxAt(shards, j, |shards|)
    decreases hi
  {
    hide MaxAt, HasRow;
    j := hi - 1;
    if lo < hi - 1 {
      var i := LongestPosition(shards, lo, hi - 1);
      if MaxAt(shards, i, |shards|) > MaxAt(shards, j, |shards|) {
        j := i;
      }
    }
    LongestOfPositions(shards, lo, hi, j);
  }

  lemma LongestOfPositions<T>(shards: seq<seq<Row<T>>>, lo: nat, hi: nat, j: nat)
    requires lo <= j < hi && forall pos :: lo <= pos < hi ==> HasRow(shards, pos)
    requires forall pos :: lo <= pos < hi ==> MaxAt(shards, pos, |shards|) <= MaxAt(shards, j, |shards|)
    ensures IsLongest(shards, lo, hi, MaxAt(shards, j, |shards|))
  {
    hide MaxAt;
    MaxAtIsReached(shards, j, |shards|);
    forall s, pos | 0 <= s < |shards| && lo <= pos < hi && pos < |shards[s]|
      ensures shards[s][pos].length <= MaxAt(shards, j, |shards|)
    {
      MaxAtBounds(shards, pos, |shards|, s);
    }
  }

  // The same for a single position.
  ghost predicate IsRecordedAt<T>(shards: seq<seq<Row<T>>>, pos: nat, round: nat, width: nat, r: nat) {
    IsRecorded(shards, pos, pos + 1, round, width, r)
  }

  // The rows at one position can be batched: every shard has one, and its recorded length is in budget.
  ghost predicate RowFits<T>(shards: seq<seq<Row<T>>>, pos: nat, round: nat, width: nat, budget: int) {
    && (forall s :: 0 <= s < |shards| ==> pos < |shards[s]|)
    && exists r: nat :: IsRecordedAt(shards, pos, round, width, r) && r <= budget
  }

  lemma RoundedIsRecorded<T>(shards: seq<seq<Row<T>>>, pos: nat, round: nat, width: nat)
    requires HasRow(shards, pos) && round > 0
    ensures IsRecordedAt(shards, pos, round, width, RoundedAt(shards, pos, round, width))
  {
    LongestOfPositions(shards, pos, pos + 1, pos);
    hide MaxAt, RoundsUp, IsLongest;
  }

  lemma FitsMeansRowFits<T>(shards: seq<seq<Row<T>>>, pos: nat, round: nat, width: nat, budget: int)
    ensures Fits(shards, pos, round, width, budget) <==> RowFits(shards, pos, round, width, budget)
  {
    hide IsRecorded, MaxAt, Rounded;
    if HasRow(shards, pos) && round > 0 {
      var r := RoundedAt(shards, pos, round, width);
      RoundedIsRecorded(shards, pos, round, width);
      if RowFits(shards, pos, round, width, budget) {
        var r': nat :| IsRecordedAt(shards, pos, round, width, r') && r' <= budget;
        RecordedIsUnique(shards, pos, pos + 1, round, width, r, r');
      }
    } else if round == 0 {
      NothingRecorded(shards, pos, width);
    }
  }

  lemma NothingRecorded<T>(shards: seq<seq<Row<T>>>, pos: nat, width: nat)
    ensures forall r: nat :: !IsRecordedAt(shards, pos, 0, width, r)
  {
  }

  // ---------------------------------------------------------------- microbatches of one chunk

  function MaxOf(m: seq<nat>, lo: nat, hi: nat): nat
    requires lo <= hi <= |m|
  {
    if lo == hi then 0 else Max(MaxOf(m, lo, hi - 1), m[hi - 1])
  }

  // Tokens of a microbatch: its rows times its longest (rounded) row.
  function Tokens(rows: nat, length: nat): nat {
    rows * length
  }

  function Cost(m: seq<nat>, lo: nat, hi: nat): nat
    requires lo <= hi <= |m|
  {
    Tokens(hi - lo, MaxOf(m, lo, hi))
  }

  lemma {:induction false} MaxOfMember(m: seq<nat>, lo: nat, hi: nat, i: nat)
    requires lo <= i < hi <= |m|
    ensures m[i] <= MaxOf(m, lo, hi)
  {
    if i < hi - 1 {
      MaxOfMember(m, lo, hi - 1, i);
    }
  }

  lemma {:induction false} MaxOfBounded(m: seq<nat>, lo: nat, hi: nat, bound: nat)
    requires lo <= hi <= |m| && forall i :: lo <= i < hi ==> m[i] <= bound
    ensures MaxOf(m, lo, hi) <= bound
  {
    if lo < hi {
      MaxOfBounded(m, lo, hi - 1, bound);
    }
  }

  // Consecutive ranges from 0 to n, non-empty when there are rows.
  ghost predicate Tiles(ranges: seq<Range>, n: nat) {
    && |ranges| > 0
    && ranges[0].start == 0
    && ranges[|ranges| - 1].end == n
    && (forall b :: 0 <= b < |ranges| ==> ranges[b].start <= ranges[b].end <= n)
    && (forall b :: 0 <= b < |ranges| - 1 ==> ranges[b + 1].start == ranges[b].end)
    && (n > 0 ==> forall b :: 0 <= b < |ranges| ==> ranges[b].start < ranges[b].end)
    && (n == 0 ==> |ranges| == 1)
  }

  // The recorded length is the longest row of the range, and the range is within budget.
  ghost predicate WithinBudget(m: seq<nat>, ranges: seq<Range>, lengths: seq<nat>, budget: int) {
    && |ranges| == |lengths|
    && (forall b :: 0 <= b < |ranges| ==>
          && ranges[b].start <= ranges[b].end <= |m|
          && lengths[b] == MaxOf(m, ranges[b].start, ranges[b].end)
          && Cost(m, ranges[b].start, ranges[b].end) <= budget)
  }

  // Taking one more row would have exceeded the budget.
  ghost predicate Maximal(m: seq<nat>, ranges: seq<Range>, budget: int) {
    forall b :: 0 <= b < |ranges| - 1 ==>
      && ranges[b].start <= ranges[b].end < |m|
      && Cost(m, ranges[b].start, ranges[b].end + 1) > budget
  }

  ghost predicate GreedyLayout(m: seq<nat>, n: nat, budget: int, ranges: seq<Range>, lengths: seq<nat>) {
    n <= |m| && Tiles(ranges, n) && WithinBudget(m, ranges, lengths, budget) && Maximal(m, ranges, budget)
  }

  method ChunkMicrobatches<T>(shards: seq<seq<Row<T>>>, start: nat, shardSize: nat, round: nat, width: nat, budget: int)
    returns (r: Result<(seq<Range>, seq<nat>), DynamicError>)
    requires budget >= 0
    ensures r.Ok? <==> AllFit(shards, start, shardSize, round, width, budget)
    ensures r.Ok? ==>
              GreedyLayout(RoundedLengths(shards, start, shardSize, round, width), shardSize, budget, r.value.0, r.value.1)
    ensures r.Ok? ==> RowLayout(shards, start, shardSize, round, width, budget, r.value.0, r.value.1)
  {
    var ranges, lengths := [Range(0, 0)], [0];
    var maxThis := 0;
    ghost var m := [];
    EmptyLayout(budget);
    hide GreedyLayout, Fits, RoundedAt, AllFit, RoundedLengths, RowLayout;
    NoRows(shards, start, round, width, budget);
    for i := 0 to shardSize
      invariant AllFit(shards, start, i, round, width, budget)
      invariant m == RoundedLengths(shards, start, i, round, width)
      invariant GreedyLayout(m, i, budget, ranges, lengths)
      invariant maxThis == lengths[|lengths| - 1]
    {
      var rounded := CheckedLength(shards, start + i, round, width, budget);
      if rounded.Err? {
        OneMisfit(shards, start, i, shardSize, round, width, budget);
        return Err(rounded.error);
      }
      OneMoreRow(shards, start, i, round, width, budget);
      ranges, lengths, maxThis := AddRow(m, i, budget, ranges, lengths, maxThis, rounded.value);
      m := m + [rounded.value];
    }
    GreedyIsRowLayout(shards, start, shardSize, round, width, budget, ranges, lengths);
    return Ok((ranges, lengths));
  }

  lemma NoRows<T>(shards: seq<seq<Row<T>>>, start: nat, round: nat, width: nat, budget: int)
    ensures AllFit(shards, start, 0, round, width, budget) && RoundedLengths(shards, start, 0, round, width) == []
  {
  }

  lemma OneMoreRow<T>(shards: seq<seq<Row<T>>>, start: nat, i: nat, round: nat, width: nat, budget: int)
    requires AllFit(shards, start, i, round, width, budget) && Fits(shards, start + i, round, width, budget)
    ensures AllFit(shards, start, i + 1, round, width, budget)
    ensures RoundedLengths(shards, start, i + 1, round, width)
         == RoundedLengths(shards, start, i, round, width) + [RoundedAt(shards, start + i, round, width)]
  {
    hide Fits, RoundedAt;
  }

  lemma OneMisfit<T>(shards: seq<seq<Row<T>>>, start: nat, i: nat, n: nat, round: nat, width: nat, budget: int)
    requires i < n && !Fits(shards, start + i, round, width, budget)
    ensures !AllFit(shards, start, n, round, width, budget)
  {
    hide Fits;
  }

  lemma EmptyLayout(budget: int)
    requires budget >= 0
    ensures GreedyLayout([], 0, budget, [Range(0, 0)], [0])
  {
  }

  // The loop's lookups and assertions at one position.
  method CheckedLength<T>(shards: seq<seq<Row<T>>>, pos: nat, round: nat, width: nat, budget: int)
    returns (r: Result<nat, DynamicError>)
    ensures r.Ok? <==> Fits(shards, pos, round, width, budget)
    ensures r.Ok? ==> IsRecordedAt(shards, pos, round, width, r.value)
    ensures r.Ok? ==> r.value == RoundedAt(shards, pos, round, width) <= budget
    ensures r.Err? ==> (r.error == NoSuchRow <==> !HasRow(shards, pos)) && (r.error == ZeroRound ==> round == 0)
    ensures r.Err? && r.error == RowTooLong ==> round > 0 && RoundedAt(shards, pos, round, width) > budget
  {
    if exists s :: 0 <= s < |shards| && pos >= |shards[s]| {
      return Err(NoSuchRow);
    }
    var longest := LongestAt(shards, pos);
    if round == 0 {
      return Err(ZeroRound);
    }
    var rounded := Rounded(longest, round, width);
    RoundedIsRecorded(shards, pos, round, width);
    if rounded > budget {
      return Err(RowTooLong);
    }
    return Ok(rounded);
  }

  // The maximum over all shards at one position.
  method LongestAt<T>(shards: seq<seq<Row<T>>>, pos: nat) returns (longest: nat)
    requires HasRow(shards, pos)
    ensures longest == MaxAt(shards, pos, |shards|)
  {
    longest := 0;
    for s := 0 to |shards|
      invariant longest == MaxAt(shards, pos, s)
    {
      longest := Max(longest, shards[s][pos].length);
    }
  }

  // One round of the greedy loop: the row joins the last microbatch or opens a new one.
  method AddRow(ghost m: seq<nat>, i: nat, budget: int, ranges: seq<Range>, lengths: seq<nat>, maxThis: nat, rounded: nat)
    returns (ranges': seq<Range>, lengths': seq<nat>, maxThis': nat)
    requires |m| == i && GreedyLayout(m, i, budget, ranges, lengths) && maxThis == lengths[|lengths| - 1]
    requires rounded <= budget
    ensures GreedyLayout(m + [rounded], i + 1, budget, ranges', lengths') && maxThis' == lengths'[|lengths'| - 1]
  {
    LastRange(m, i, budget, ranges, lengths);
    hide GreedyLayout;
    var k := |ranges| - 1;
    maxThis' := Max(maxThis, rounded);
    var rows := ranges[k].end - ranges[k].start + 1;
    if rows * maxThis' <= budget {
      ranges' := ranges[k := Range(ranges[k].start, ranges[k].end + 1)];
      lengths' := lengths[k := maxThis'];
      GrowKeepsLayout(m, i, budget, ranges, lengths, rounded);
    } else {
      ranges' := ranges + [Range(i, i + 1)];
      maxThis' := rounded;
      lengths' := lengths + [maxThis'];
      OpenKeepsLayout(m, i, budget, ranges, lengths, rounded);
    }
  }

  lemma LastRange(m: seq<nat>, n: nat, budget: int, ranges: seq<Range>, lengths: seq<nat>)
    requires GreedyLayout(m, n, budget, ranges, lengths)
    ensures |ranges| == |lengths| > 0 && ranges[|ranges| - 1].start <= ranges[|ranges| - 1].end == n
  {
    hide Cost, MaxOf, Maximal;
  }

  // Earlier ranges do not see a row that is added at the end.
  lemma {:induction false} MaxOfPrefix(m: seq<nat>, x: nat, lo: nat, hi: nat)
    requires lo <= hi <= |m|
    ensures MaxOf(m + [x], lo, hi) == MaxOf(m, lo, hi)
  {
    if lo < hi {
      MaxOfPrefix(m, x, lo, hi - 1);
    }
  }

  lemma CostPrefix(m: seq<nat>, x: nat, lo: nat, hi: nat)
    requires lo <= hi <= |m|
    ensures Cost(m + [x], lo, hi) == Cost(m, lo, hi)
  {
    MaxOfPrefix(m, x, lo, hi);
  }

  lemma CostWithRow(m: seq<nat>, x: nat, lo: nat)
    requires lo <= |m|
    ensures MaxOf(m + [x], lo, |m| + 1) == Max(MaxOf(m, lo, |m|), x)
    ensures Cost(m + [x], lo, |m| + 1) == Tokens(|m| - lo + 1, Max(MaxOf(m, lo, |m|), x))
  {
    MaxOfPrefix(m, x, lo, |m|);
  }

  lemma PrefixKeepsBudget(m: seq<nat>, x: nat, ranges: seq<Range>, lengths: seq<nat>, budget: int)
    requires WithinBudget(m, ranges, lengths, budget)
    ensures WithinBudget(m + [x], ranges, lengths, budget)
  {
    forall b | 0 <= b < |ranges|
      ensures lengths[b] == MaxOf(m + [x], ranges[b].start, ranges[b].end)
      ensures Cost(m + [x], ranges[b].start, ranges[b].end) <= budget
    {
      MaxOfPrefix(m, x, ranges[b].start, ranges[b].end);
    }
    hide MaxOf, Tokens;
  }

  lemma PrefixKeepsMaximal(m: seq<nat>, x: nat, ranges: seq<Range>, budget: int)
    requires Maximal(m, ranges, budget)
    ensures Maximal(m + [x], ranges, budget)
  {
    forall b | 0 <= b < |ranges| - 1 ensures Cost(m + [x], ranges[b].start, ranges[b].end + 1) > budget {
      CostPrefix(m, x, ranges[b].start, ranges[b].end + 1);
    }
    hide Cost;
  }

  lemma GrowKeepsLayout(m: seq<nat>, n: nat, budget: int, ranges: seq<Range>, lengths: seq<nat>, x: nat)
    requires |m| == n && GreedyLayout(m, n, budget, ranges, lengths)
    requires var k := |ranges| - 1;
             Tokens(ranges[k].end - ranges[k].start + 1, Max(lengths[k], x)) <= budget
    ensures var k := |ranges| - 1;
            GreedyLayout(m + [x], n + 1, budget, ranges[k := Range(ranges[k].start, ranges[k].end + 1)],
                         lengths[k := Max(lengths[k], x)])
  {
    PrefixKeepsBudget(m, x, ranges, lengths, budget);
    PrefixKeepsMaximal(m, x, ranges, budget);
    CostWithRow(m, x, ranges[|ranges| - 1].start);
    hide Cost, MaxOf, Tokens;
  }

  lemma OpenKeepsLayout(m: seq<nat>, n: nat, budget: int, ranges: seq<Range>, lengths: seq<nat>, x: nat)
    requires |m| == n && GreedyLayout(m, n, budget, ranges, lengths) && x <= budget
    requires var k := |ranges| - 1;
             Tokens(ranges[k].end - ranges[k].start + 1, Max(lengths[k], x)) > budget
    ensures GreedyLayout(m + [x], n + 1, budget, ranges + [Range(n, n + 1)], lengths + [x])
  {
    OpenKeepsBudget(m, n, budget, ranges, lengths, x);
    PrefixKeepsMaximal(m, x, ranges, budget);
    CostWithRow(m, x, ranges[|ranges| - 1].start);
    FirstRowJoins(m, ranges, lengths, budget, x);
    hide Cost, MaxOf, Tokens, WithinBudget;
    assert Tiles(ranges + [Range(n, n + 1)], n + 1);
  }

  lemma OpenKeepsBudget(m: seq<nat>, n: nat, budget: int, ranges: seq<Range>, lengths: seq<nat>, x: nat)
    requires |m| == n && WithinBudget(m, ranges, lengths, budget) && x <= budget
    ensures WithinBudget(m + [x], ranges + [Range(n, n + 1)], lengths + [x], budget)
  {
    PrefixKeepsBudget(m, x, ranges, lengths, budget);
    CostWithRow(m, x, n);
    OneRowTokens(x);
    assert MaxOf(m, n, n) == 0;
    hide Cost, MaxOf, Tokens;
  }

  lemma OneRowTokens(x: nat)
    ensures Tokens(1, x) == x && Max(0, x) == x
  {
  }

  // The first row always joins the initial empty microbatch.
  lemma FirstRowJoins(m: seq<nat>, ranges: seq<Range>, lengths: seq<nat>, budget: int, x: nat)
    requires GreedyLayout(m, |m|, budget, ranges, lengths) && x <= budget
    requires var k := |ranges| - 1;
             Tokens(ranges[k].end - ranges[k].start + 1, Max(lengths[k], x)) > budget
    ensures |m| > 0
  {
    OneRowTokens(x);
    assert MaxOf(m, 0, 0) == 0;
  }

  // ---------------------------------------------------------------- the greedy loop is optimal

  lemma {:induction false} MaxOfGrows(m: seq<nat>, lo: nat, lo': nat, hi': nat, hi: nat)
    requires lo <= lo' <= hi' <= hi <= |m|
    ensures MaxOf(m, lo', hi') <= MaxOf(m, lo, hi)
    decreases hi
  {
    if hi' < hi {
      MaxOfGrows(m, lo, lo', hi', hi - 1);
    } else if lo' < hi' {
      MaxOfGrows(m, lo, lo', hi' - 1, hi - 1);
    }
  }

  lemma CostGrows(m: seq<nat>, lo: nat, lo': nat, hi': nat, hi: nat)
    requires lo <= lo' <= hi' <= hi <= |m|
    ensures Cost(m, lo', hi') <= Cost(m, lo, hi)
  {
    MaxOfGrows(m, lo, lo', hi', hi);
    MulMonoBoth(hi' - lo', hi - lo, MaxOf(m, lo', hi'), MaxOf(m, lo, hi));
  }

  // Any division of the rows into consecutive microbatches within the budget, empty ones allowed.
  ghost predicate Split(m: seq<nat>, n: nat, budget: int, other: seq<Range>) {
    && n <= |m| && |other| > 0 && other[0].start == 0 && other[|other| - 1].end == n
    && (forall b :: 0 <= b < |other| - 1 ==> other[b + 1].start == other[b].end)
    && (forall b :: 0 <= b < |other| ==>
          other[b].start <= other[b].end <= n && Cost(m, other[b].start, other[b].end) <= budget)
  }

  // The j-th greedy microbatch reaches at least as far as the j-th of any split.
  lemma {:induction false} GreedyStaysAhead(
      m: seq<nat>, n: nat, budget: int, ranges: seq<Range>, lengths: seq<nat>, other: seq<Range>, j: nat)
    requires GreedyLayout(m, n, budget, ranges, lengths) && Split(m, n, budget, other)
    requires j < |ranges| && j < |other|
    ensures ranges[j].end >= other[j].end
  {
    hide Cost;
    if j > 0 {
      GreedyStaysAhead(m, n, budget, ranges, lengths, other, j - 1);
      assert ranges[j - 1 + 1].start == ranges[j - 1].end && other[j - 1 + 1].start == other[j - 1].end;
    }
    if ranges[j].end < other[j].end {
      CostGrows(m, other[j].start, ranges[j].start, ranges[j].end + 1, other[j].end);
    }
  }

  // No split within the budget has fewer microbatches than the greedy loop makes.
  lemma GreedyIsOptimal(m: seq<nat>, n: nat, budget: int, ranges: seq<Range>, lengths: seq<nat>, other: seq<Range>)
    requires GreedyLayout(m, n, budget, ranges, lengths) && Split(m, n, budget, other)
    ensures |ranges| <= |other|
  {
    hide Cost, MaxOf;
    var j := |other| - 1;
    if j < |ranges| - 1 {
      EndsBefore(ranges, n, j);
      GreedyStaysAhead(m, n, budget, ranges, lengths, other, j);
    }
  }

  lemma EndsBefore(ranges: seq<Range>, n: nat, j: nat)
    requires Tiles(ranges, n) && j < |ranges| - 1
    ensures ranges[j].end < n
  {
    assert ranges[j + 1].start < ranges[j + 1].end;
  }

  // The greedy layout is itself such a split, so the minimum is attained.
  lemma GreedyIsSplit(m: seq<nat>, n: nat, budget: int, ranges: seq<Range>, lengths: seq<nat>)
    requires GreedyLayout(m, n, budget, ranges, lengths)
    ensures Split(m, n, budget, ranges)
  {
    hide Cost, MaxOf, Maximal;
  }

  // ---------------------------------------------------------------- the layout, read off the rows

  ghost predicate IsRecordedIn<T>(shards: seq<seq<Row<T>>>, start: nat, range: Range, round: nat, width: nat, r: nat) {
    IsRecorded(shards, start + range.start, start + range.end, round, width, r)
  }

  // The rows of a range, each as long as the recorded length, fit into the budget.
  ghost predicate RangeWithin<T>(shards: seq<seq<Row<T>>>, start: nat, round: nat, width: nat, budget: int, range: Range) {
    && range.start <= range.end
    && exists r: nat :: IsRecordedIn(shards, start, range, round, width, r) && (range.end - range.start) * r <= budget
  }

  // Every microbatch records the rounded longest length of its rows, fits into the budget with it,
  // and would not fit with one more row.
  ghost predicate RowLayout<T>(
      shards: seq<seq<Row<T>>>, start: nat, n: nat, round: nat, width: nat, budget: int, ranges: seq<Range>, lengths: seq<nat>)
  {
    && Tiles(ranges, n) && |ranges| == |lengths|
    && (forall b :: 0 <= b < |ranges| ==>
          && IsRecordedIn(shards, start, ranges[b], round, width, lengths[b])
          && (ranges[b].end - ranges[b].start) * lengths[b] <= budget)
    && (forall b :: 0 <= b < |ranges| - 1 ==>
          !RangeWithin(shards, start, round, width, budget, Range(ranges[b].start, ranges[b].end + 1)))
  }

  // The longest rounded length of a stretch of positions is the rounded longest length.
  lemma MaxOfRecorded<T>(shards: seq<seq<Row<T>>>, start: nat, n: nat, round: nat, width: nat, budget: int, range: Range)
    requires AllFit(shards, start, n, round, width, budget) && range.start <= range.end <= n
    ensures IsRecordedIn(shards, start, range, round, width,
                         MaxOf(RoundedLengths(shards, start, n, round, width), range.start, range.end))
  {
    hide MaxAt, Rounded, IsLongest, RoundsUp, MaxOf;
    var m := RoundedLengths(shards, start, n, round, width);
    var lo, hi := range.start, range.end;
    if lo == hi {
      EmptyMax(m, lo);
    } else {
      forall pos | start + lo <= pos < start + hi ensures HasRow(shards, pos) && round > 0 {
        assert Fits(shards, pos, round, width, budget);
      }
      var j := LongestPosition(shards, start + lo, start + hi);
      forall i | lo <= i < hi ensures m[i] <= m[j - start] {
        assert HasRow(shards, start + i) && HasRow(shards, j);
        RoundedMonotone(MaxAt(shards, start + i, |shards|), MaxAt(shards, j, |shards|), round, width);
      }
      MaxOfBounded(m, lo, hi, m[j - start]);
      MaxOfMember(m, lo, hi, j - start);
      assert m[j - start] == Rounded(MaxAt(shards, j, |shards|), round, width);
    }
  }

  lemma EmptyMax(m: seq<nat>, lo: nat)
    requires lo <= |m|
    ensures MaxOf(m, lo, lo) == 0
  {
  }

  lemma WithinMeansCost<T>(
      shards: seq<seq<Row<T>>>, start: nat, n: nat, round: nat, width: nat, budget: int, range: Range)
    requires AllFit(shards, start, n, round, width, budget) && range.start <= range.end <= n
    ensures RangeWithin(shards, start, round, width, budget, range)
       <==> Cost(RoundedLengths(shards, start, n, round, width), range.start, range.end) <= budget
  {
    hide MaxOf, IsRecorded, AllFit, RoundedLengths;
    var max := MaxOf(RoundedLengths(shards, start, n, round, width), range.start, range.end);
    MaxOfRecorded(shards, start, n, round, width, budget, range);
    if RangeWithin(shards, start, round, width, budget, range) {
      var r: nat :| IsRecordedIn(shards, start, range, round, width, r) && (range.end - range.start) * r <= budget;
      RecordedIsUnique(shards, start + range.start, start + range.end, round, width, r, max);
    }
  }

  lemma GreedyIsRowLayout<T>(
      shards: seq<seq<Row<T>>>, start: nat, n: nat, round: nat, width: nat, budget: int, ranges: seq<Range>, lengths: seq<nat>)
    requires AllFit(shards, start, n, round, width, budget)
    requires GreedyLayout(RoundedLengths(shards, start, n, round, width), n, budget, ranges, lengths)
    ensures RowLayout(shards, start, n, round, width, budget, ranges, lengths)
  {
    hide MaxOf, IsRecordedIn, AllFit, RoundedLengths, RangeWithin;
    var m := RoundedLengths(shards, start, n, round, width);
    forall b | 0 <= b < |ranges|
      ensures IsRecordedIn(shards, start, ranges[b], round, width, lengths[b])
      ensures (ranges[b].end - ranges[b].start) * lengths[b] <= budget
    {
      MaxOfRecorded(shards, start, n, round, width, budget, ranges[b]);
      assert Cost(m, ranges[b].start, ranges[b].end) <= budget;
    }
    forall b | 0 <= b < |ranges| - 1
      ensures !RangeWithin(shards, start, round, width, budget, Range(ranges[b].start, ranges[b].end + 1))
    {
      EndsBefore(ranges, n, b);
      WithinMeansCost(shards, start, n, round, width, budget, Range(ranges[b].start, ranges[b].end + 1));
    }
  }

  // Any division of the rows into consecutive microbatches within the budget, read off the rows.
  ghost predicate RowSplit<T>(
      shards: seq<seq<Row<T>>>, start: nat, n: nat, round: nat, width: nat, budget: int, other: seq<Range>)
  {
    && |other| > 0 && other[0].start == 0 && other[|other| - 1].end == n
    && (forall b :: 0 <= b < |other| - 1 ==> other[b + 1].start == other[b].end)
    && (forall b :: 0 <= b < |other| ==>
          other[b].start <= other[b].end <= n && RangeWithin(shards, start, round, width, budget, other[b]))
  }

  // The minimum over all divisions of a chunk's rows is attained by what the loop makes of them.
  lemma FewestMicrobatches<T>(
      shards: seq<seq<Row<T>>>, start: nat, n: nat, round: nat, width: nat, budget: int,
      ranges: seq<Range>, lengths: seq<nat>, other: seq<Range>)
    requires AllFit(shards, start, n, round, width, budget)
    requires GreedyLayout(RoundedLengths(shards, start, n, round, width), n, budget, ranges, lengths)
    ensures RowSplit(shards, start, n, round, width, budget, ranges)
    ensures RowSplit(shards, start, n, round, width, budget, other) ==> |ranges| <= |other|
  {
    hide Cost, RangeWithin, AllFit, RoundedLengths, GreedyLayout;
    var m := RoundedLengths(shards, start, n, round, width);
    GreedyIsSplit(m, n, budget, ranges, lengths);
    forall b | 0 <= b < |ranges| ensures RangeWithin(shards, start, round, width, budget, ranges[b]) {
      WithinMeansCost(shards, start, n, round, width, budget, ranges[b]);
    }
    if RowSplit(shards, start, n, round, width, budget, other) {
      forall b | 0 <= b < |other| ensures Cost(m, other[b].start, other[b].end) <= budget {
        WithinMeansCost(shards, start, n, round, width, budget, other[b]);
      }
      GreedyIsOptimal(m, n, budget, ranges, lengths, other);
    }
  }

  // ---------------------------------------------------------------- all chunks

  // The rows at every position of a chunk, or of every chunk, can be batched.
  ghost predicate RowsFit<T>(shards: seq<seq<Row<T>>>, start: nat, n: nat, round: nat, width: nat, budget: int) {
    forall pos :: start <= pos < start + n ==> RowFits(shards, pos, round, width, budget)
  }

  ghost predicate AllRowsFit<T>(shards: seq<seq<Row<T>>>, chunks: nat, shardSize: nat, round: nat, width: nat, budget: int) {
    forall c :: 0 <= c < chunks ==> RowsFit(shards, Times(c, shardSize), shardSize, round, width, budget)
  }

  lemma FitMeansRowsFit<T>(shards: seq<seq<Row<T>>>, start: nat, n: nat, round: nat, width: nat, budget: int)
    ensures AllFit(shards, start, n, round, width, budget) <==> RowsFit(shards, start, n, round, width, budget)
  {
    hide Fits, RowFits;
    forall pos ensures Fits(shards, pos, round, width, budget) <==> RowFits(shards, pos, round, width, budget) {
      FitsMeansRowFits(shards, pos, round, width, budget);
    }
  }

  lemma ChunksFitMeansRowsFit<T>(shards: seq<seq<Row<T>>>, chunks: nat, shardSize: nat, round: nat, width: nat, budget: int)
    ensures AllChunksFit(shards, chunks, shardSize, round, width, budget)
       <==> AllRowsFit(shards, chunks, shardSize, round, width, budget)
  {
    hide AllFit, RowsFit;
    forall start: nat
      ensures AllFit(shards, start, shardSize, round, width, budget) <==> RowsFit(shards, start, shardSize, round, width, budget)
    {
      FitMeansRowsFit(shards, start, shardSize, round, width, budget);
    }
  }

  // No lookup and no assertion of the loop fails in any chunk.
  ghost predicate AllChunksFit<T>(shards: seq<seq<Row<T>>>, chunks: nat, shardSize: nat, round: nat, width: nat, budget: int) {
    forall c :: 0 <= c < chunks ==> AllFit(shards, Times(c, shardSize), shardSize, round, width, budget)
  }

  method BuildMicrobatches<T>(shards: seq<seq<Row<T>>>, chunks: nat, shardSize: nat, round: nat, width: nat, budget: int)
    returns (r: Result<Layout, DynamicError>)
    requires budget >= 0
    ensures r.Ok? <==> AllChunksFit(shards, chunks, shardSize, round, width, budget)
    ensures r.Ok? <==> AllRowsFit(shards, chunks, shardSize, round, width, budget)
    ensures r.Ok? ==> LayoutOf(shards, chunks, shardSize, round, width, budget, r.value)
    ensures r.Ok? ==> forall c :: 0 <= c < chunks ==>
              RowLayout(shards, Times(c, shardSize), shardSize, round, width, budget, r.value.indices[c], r.value.lengths[c])
  {
    hide GreedyLayout, RoundedLengths, AllFit, RowLayout, AllRowsFit, RowsFit;
    ChunksFitMeansRowsFit(shards, chunks, shardSize, round, width, budget);
    var layout := Layout([], []);
    for c := 0 to chunks
      invariant forall d :: 0 <= d < c ==> AllFit(shards, Times(d, shardSize), shardSize, round, width, budget)
      invariant LayoutOf(shards, c, shardSize, round, width, budget, layout)
      invariant forall d :: 0 <= d < c ==>
                  RowLayout(shards, Times(d, shardSize), shardSize, round, width, budget, layout.indices[d], layout.lengths[d])
    {
      var chunk := ChunkMicrobatches(shards, Times(c, shardSize), shardSize, round, width, budget);
      if chunk.Err? {
        assert !AllFit(shards, Times(c, shardSize), shardSize, round, width, budget);
        return Err(chunk.error);
      }
      layout := Layout(layout.indices + [chunk.value.0], layout.lengths + [chunk.value.1]);
    }
    return Ok(layout);
  }

  // Every chunk has the greedy layout of its rounded lengths; all shards are given this one layout.
  ghost predicate LayoutOf<T>(
      shards: seq<seq<Row<T>>>, chunks: nat, shardSize: nat, round: nat, width: nat, budget: int, layout: Layout)
  {
    && |layout.indices| == |layout.lengths| == chunks
    && forall c :: 0 <= c < chunks ==>
         GreedyLayout(RoundedLengths(shards, Times(c, shardSize), shardSize, round, width), shardSize, budget,
                      layout.indices[c], layout.lengths[c])
  }
}
