/** Asynchronous GRPO as a transition system. */
module AsyncProtocol {
  import opened Wrappers
  import opened Arith
  import Seqs
  import opened ReplayBuffers
  import opened Collectors

  // The collector thread, its prompt-group workers, the replay buffer, the trainer and the mailbox
  // that carries new weight versions.

  // num_prompts_per_step, max_trajectory_age_steps and the step that training starts from.
  datatype Params = Params(prompts: nat, maxAge: nat, start: int)

  ghost predicate WellFormed(c: Params) {
    c.prompts >= 1 && c.maxAge >= 1 && c.start >= 0
  }

  // The payload of a group is the index of its prompt within the collector's batch.
  type Group = Entry<nat>

  // Where the collector stands in _process_batch. The buffer's answer is read in one step and
  // used in another, as in the source.
  datatype CollectorState =
    | Idle
    | GotVersion(version: int)
    | GotLast(version: int, seen: int)
    | Spawning(version: int, target: int, next: nat)

  datatype Phase = Sampling | Training

  // running: workers that still have to push; closing: workers that pushed and have not ended.
  // reserved and trained are histories that no step reads: the reservations in the order they
  // were made and the batches in the order they were trained on.
  datatype State = State(
    weight: int, phase: Phase, mailbox: seq<int>, version: int,
    collector: CollectorState, generating: set<int>, running: seq<Group>, closing: seq<Group>,
    buffer: seq<Group>, last: int, crashed: bool,
    reserved: seq<int>, trained: seq<seq<Group>>)

  datatype Action =
    | StartBatch | ReadLast | Reserve | RereadVersion | Spawn | EndBatch
    | Push(k: nat) | ReleaseFirst(k: nat) | Finish(k: nat)
    | Sample | Refit | Deliver

  function Init(c: Params): State {
    State(c.start, Sampling, [c.start], c.start, Idle, {}, [], [], [], -1, false, [], [])
  }

  function MaxInflight(c: Params): nat {
    if c.prompts * c.maxAge == 0 then 1 else c.prompts * c.maxAge
  }

  function Capacity(c: Params): nat {
    c.prompts * c.maxAge * 2
  }

  predicate Enabled(c: Params, s: State, a: Action) {
    match a
    case StartBatch => s.collector.Idle?
    case ReadLast => s.collector.GotVersion?
    case Reserve => s.collector.GotLast?
    case RereadVersion => s.collector.Spawning? && s.collector.next < c.prompts
    case Spawn => s.collector.Spawning? && s.collector.next < c.prompts && |s.running| + |s.closing| < MaxInflight(c)
    case EndBatch => s.collector.Spawning? && s.collector.next == c.prompts
    case Push(k) => k < |s.running|
    case ReleaseFirst(k) => k < |s.closing| && s.closing[k].item == 0
    case Finish(k) => k < |s.closing|
    case Sample => s.phase == Sampling && !s.crashed
    case Refit => s.phase == Training
    case Deliver => |s.mailbox| > 0
  }

  function Pick(c: Params, s: State): Option<int>
    requires s.collector.GotLast?
  {
    NextTarget(s.collector.version, c.start, c.maxAge, s.collector.seen, s.generating)
  }

  ghost function SampleStep(c: Params, s: State): State {
    match Outcome(s.buffer, c.prompts, s.weight, c.maxAge)
    case Raised(_) => s.(crashed := true)
    case Stalled => s
    case Sampled(_, _) =>
      s.(phase := Training,
         buffer := DropWanted(s.buffer, s.weight, c.maxAge, c.prompts),
         trained := s.trained + [TakeWanted(s.buffer, s.weight, c.maxAge, c.prompts)])
  }

  ghost function Step(c: Params, s: State, a: Action): State
    requires Enabled(c, s, a)
  {
    match a
    case StartBatch => s.(collector := GotVersion(s.version))
    case ReadLast => s.(collector := GotLast(s.collector.version, s.last))
    case Reserve =>
      (match Pick(c, s)
       case None => s.(collector := Idle)
       case Some(t) =>
         s.(collector := Spawning(s.collector.version, t, 0),
            generating := s.generating + {t},
            reserved := s.reserved + [t]))
    case RereadVersion => s.(collector := s.collector.(version := s.version))
    case Spawn =>
      s.(running := s.running + [Entry(s.collector.version, s.collector.target, s.collector.next)],
         collector := s.collector.(next := s.collector.next + 1))
    case EndBatch => s.(collector := Idle)
    case Push(k) =>
      if |s.buffer| >= Capacity(c) then s
      else
        s.(running := RemoveAt(s.running, k),
           closing := s.closing + [s.running[k]],
           buffer := s.buffer + [s.running[k]],
           last := Max(s.last, s.running[k].target))
    case ReleaseFirst(k) => s.(generating := s.generating - {s.closing[k].target})
    case Finish(k) =>
      s.(generating := s.generating - {s.closing[k].target}, closing := RemoveAt(s.closing, k))
    case Sample => SampleStep(c, s)
    case Refit => s.(phase := Sampling, weight := s.weight + 1, mailbox := s.mailbox + [s.weight + 1])
    case Deliver => s.(version := s.mailbox[0], mailbox := s.mailbox[1..])
  }

  // A reservation is fresh when what the collector read still holds for the step it picks.
  ghost predicate FreshStep(c: Params, s: State, a: Action) {
    a.Reserve? && s.collector.GotLast? && Pick(c, s).Some? ==> Pick(c, s).value > s.last
  }

  // ---------------------------------------------------------------- runs

  ghost function Run(c: Params, acts: seq<Action>): Option<State> {
    if |acts| == 0 then Some(Init(c))
    else
      var before := Run(c, acts[..|acts| - 1]);
      if before.Some? && Enabled(c, before.value, acts[|acts| - 1])
      then Some(Step(c, before.value, acts[|acts| - 1]))
      else None
  }

  ghost predicate FreshRun(c: Params, acts: seq<Action>) {
    |acts| > 0 ==>
      && FreshRun(c, acts[..|acts| - 1])
      && (Run(c, acts[..|acts| - 1]).Some? ==> FreshStep(c, Run(c, acts[..|acts| - 1]).value, acts[|acts| - 1]))
  }

  // ---------------------------------------------------------------- counting groups

  predicate Matches(e: Group, target: int, prompt: int) {
    e.target == target && (prompt == -1 || e.item == prompt)
  }

  // Groups for a training step, of one prompt or (with prompt -1) of all prompts.
  function Count(es: seq<Group>, target: int, prompt: int): nat {
    if |es| == 0 then 0
    else Count(es[..|es| - 1], target, prompt) + if Matches(es[|es| - 1], target, prompt) then 1 else 0
  }

  lemma CountSnoc(es: seq<Group>, e: Group, target: int, prompt: int)
    ensures Count(es + [e], target, prompt) == Count(es, target, prompt) + if Matches(e, target, prompt) then 1 else 0
  {
    assert (es + [e])[..|es|] == es;
  }

  lemma {:induction false} CountRemoveAt(es: seq<Group>, k: nat, target: int, prompt: int)
    requires k < |es|
    ensures Count(es, target, prompt)
         == Count(RemoveAt(es, k), target, prompt) + if Matches(es[k], target, prompt) then 1 else 0
  {
    if k == |es| - 1 {
      assert RemoveAt(es, k) == es[..k];
    } else {
      var before, x := es[..|es| - 1], es[|es| - 1];
      CountRemoveAt(before, k, target, prompt);
      assert RemoveAt(es, k) == RemoveAt(before, k) + [x];
      CountSnoc(RemoveAt(before, k), x, target, prompt);
    }
  }

  lemma {:induction false} CountAtMostTotal(es: seq<Group>, target: int, prompt: int)
    ensures Count(es, target, prompt) <= Count(es, target, -1)
  {
    if |es| > 0 {
      CountAtMostTotal(es[..|es| - 1], target, prompt);
    }
  }

  lemma {:induction false} NoneToCount(es: seq<Group>, target: int, prompt: int)
    requires forall e :: e in es ==> e.target != target
    ensures Count(es, target, prompt) == 0
  {
    if |es| > 0 {
      assert es[|es| - 1] in es;
      NoneToCount(es[..|es| - 1], target, prompt);
    }
  }

  lemma {:induction false} CountedIsThere(es: seq<Group>, e: Group)
    requires e in es
    ensures Count(es, e.target, -1) > 0
  {
    if es[|es| - 1] != e {
      CountedIsThere(es[..|es| - 1], e);
    }
  }

  // Groups for steps from lo to lo + n - 1.
  function CountRange(es: seq<Group>, lo: int, n: nat): nat {
    if n == 0 then 0 else CountRange(es, lo, n - 1) + Count(es, lo + n - 1, -1)
  }

  lemma {:induction false} CountRangeSnoc(es: seq<Group>, e: Group, lo: int, n: nat)
    ensures CountRange(es + [e], lo, n) == CountRange(es, lo, n) + if lo <= e.target < lo + n then 1 else 0
  {
    if n > 0 {
      CountRangeSnoc(es, e, lo, n - 1);
      CountSnoc(es, e, lo + n - 1, -1);
    }
  }

  lemma {:induction false} CountRangeIsLength(es: seq<Group>, lo: int, n: nat)
    requires forall e :: e in es ==> lo <= e.target < lo + n
    ensures CountRange(es, lo, n) == |es|
  {
    if |es| == 0 {
      CountRangeEmpty(lo, n);
    } else {
      var before, e := es[..|es| - 1], es[|es| - 1];
      assert es == before + [e];
      assert e in es;
      CountRangeIsLength(before, lo, n);
      CountRangeSnoc(before, e, lo, n);
    }
  }

  lemma {:induction false} CountRangeEmpty(lo: int, n: nat)
    ensures CountRange([], lo, n) == 0
  {
    if n > 0 {
      CountRangeEmpty(lo, n - 1);
    }
  }

  lemma {:induction false} CountRangeBound(xs: seq<Group>, ys: seq<Group>, lo: int, n: nat, each: nat)
    requires forall t :: lo <= t < lo + n ==> Count(xs, t, -1) + Count(ys, t, -1) <= each
    ensures CountRange(xs, lo, n) + CountRange(ys, lo, n) <= n * each
  {
    if n > 0 {
      CountRangeBound(xs, ys, lo, n - 1, each);
      var t := lo + n - 1;
      assert Count(xs, t, -1) + Count(ys, t, -1) <= each;
      assert n * each == (n - 1) * each + each;
    }
  }

  // ---------------------------------------------------------------- counting through sample

  lemma {:induction false} CountTakeDrop(es: seq<Group>, current: int, maxAge: int, n: nat, target: int, prompt: int)
    ensures Count(TakeWanted(es, current, maxAge, n), target, prompt)
            + Count(DropWanted(es, current, maxAge, n), target, prompt)
         == Count(es, target, prompt)
  {
    if |es| > 0 {
      var before, x := es[..|es| - 1], es[|es| - 1];
      CountTakeDrop(before, current, maxAge, n, target, prompt);
      var taken, left := TakeWanted(before, current, maxAge, n), DropWanted(before, current, maxAge, n);
      CountSnoc(taken, x, target, prompt);
      CountSnoc(left, x, target, prompt);
      assert taken + [] == taken && left + [] == left;
    }
  }

  lemma {:induction false} AllMatchCount(es: seq<Group>, target: int)
    requires forall e :: e in es ==> e.target == target
    ensures Count(es, target, -1) == |es|
  {
    if |es| > 0 {
      assert es[|es| - 1] in es;
      AllMatchCount(es[..|es| - 1], target);
    }
  }

  // ---------------------------------------------------------------- the invariant

  // The first step that has not been trained on.
  function Base(c: Params, s: State): int {
    c.start + |s.trained|
  }

  ghost predicate Clock(c: Params, s: State) {
    && c.start <= s.weight
    && |s.mailbox| <= s.weight - c.start + 1
    && s.version == Max(c.start, s.weight - |s.mailbox|)
    && (forall i :: 0 <= i < |s.mailbox| ==> s.mailbox[i] == s.weight - |s.mailbox| + 1 + i)
    && |s.trained| == s.weight - c.start + (if s.phase == Training then 1 else 0)
  }

  // The version the collector works with until it starts another batch.
  function CollectorVersion(s: State): int {
    if s.collector.GotVersion? || s.collector.GotLast? then s.collector.version else s.version
  }

  ghost predicate NoGaps(reserved: seq<int>, low: int) {
    forall r, t :: r in reserved && low <= t < r ==> t in reserved
  }

  ghost predicate Reservations(c: Params, s: State) {
    && Seqs.Increasing(s.reserved)
    && (forall r :: r in s.reserved ==> c.start <= r <= s.version + c.maxAge)
    && (s.last == -1 || s.last in s.reserved)
    && (forall r :: r in s.reserved ==> r <= s.last || r in s.generating)
    && (forall g :: g in s.generating ==> g in s.reserved)
    && NoGaps(s.reserved, WindowLow(CollectorVersion(s), c.start))
    && (|s.trained| > 0 ==> Base(c, s) - 1 <= s.last)
    && c.start <= CollectorVersion(s) <= s.version
    && (s.collector.GotLast? ==> s.collector.seen <= s.last)
  }

  ghost predicate GoodAge(c: Params, e: Group) {
    c.start <= e.version && e.target - c.maxAge <= e.version <= e.target
  }

  ghost predicate LiveGroup(c: Params, s: State, e: Group) {
    && GoodAge(c, e)
    && Base(c, s) <= e.target
    && e.target in s.reserved
  }

  ghost predicate Ages(c: Params, s: State) {
    && (forall e :: e in s.buffer ==> LiveGroup(c, s, e) && e.target <= s.last)
    && (forall e :: e in s.running ==> LiveGroup(c, s, e))
    && (forall e :: e in s.closing ==> e.target in s.reserved && e.target <= s.last)
    && (s.collector.Spawning? ==>
          && s.collector.next <= c.prompts
          && s.collector.target in s.reserved
          && (s.collector.next < c.prompts ==>
                LiveGroup(c, s, Entry(s.collector.version, s.collector.target, s.collector.next))))
  }

  // Groups of a step that the collector has reserved and not yet handed to a worker.
  function Unspawned(c: Params, s: State, target: int, prompt: int): int {
    if !s.collector.Spawning? || s.collector.target != target then 0
    else if prompt == -1 then c.prompts - s.collector.next
    else if s.collector.next <= prompt < c.prompts then 1
    else 0
  }

  function Total(c: Params, s: State, target: int, prompt: int): int {
    Count(s.buffer, target, prompt) + Count(s.running, target, prompt) + Unspawned(c, s, target, prompt)
  }

  // Every reserved step that is still to be trained on has each of its prompts exactly once:
  // in the buffer, with a worker, or still to be spawned.
  function Expected(c: Params, s: State, target: int, prompt: int): int {
    if target !in s.reserved || target < Base(c, s) then 0
    else if prompt == -1 then c.prompts
    else if 0 <= prompt < c.prompts then 1
    else 0
  }

  ghost predicate Balanced(c: Params, s: State) {
    forall target, prompt :: prompt >= -1 ==> Total(c, s, target, prompt) == Expected(c, s, target, prompt)
  }

  // A batch of `step` holds every prompt exactly once, all meant for `step` and young enough.
  ghost predicate CompleteBatch(c: Params, batch: seq<Group>, step: int) {
    && |batch| == c.prompts
    && (forall e :: e in batch ==> e.target == step && GoodAge(c, e))
    && (forall p :: 0 <= p < c.prompts ==> Count(batch, step, p) == 1)
  }

  ghost predicate Log(c: Params, s: State) {
    forall i :: 0 <= i < |s.trained| ==> CompleteBatch(c, s.trained[i], c.start + i)
  }

  ghost predicate Inv(c: Params, s: State) {
    && Clock(c, s)
    && Reservations(c, s)
    && Ages(c, s)
    && Balanced(c, s)
    && Log(c, s)
    && |s.running| + |s.closing| <= MaxInflight(c)
    && !s.crashed
  }

  // ---------------------------------------------------------------- the buffer never overflows

  lemma LiveTargets(c: Params, s: State)
    requires WellFormed(c) && Inv(c, s)
    ensures forall e :: e in s.buffer || e in s.running ==> s.weight <= e.target < s.weight + c.maxAge + 1
  {
    forall e | e in s.buffer || e in s.running ensures s.weight <= e.target < s.weight + c.maxAge + 1 {
      assert LiveGroup(c, s, e);
    }
  }

  lemma LiveCounts(c: Params, s: State, t: int)
    requires WellFormed(c) && Balanced(c, s)
    requires s.collector.Spawning? ==> s.collector.next <= c.prompts
    ensures Count(s.buffer, t, -1) + Count(s.running, t, -1) <= c.prompts
  {
    assert Total(c, s, t, -1) == Expected(c, s, t, -1);
  }

  lemma BufferBound(c: Params, s: State)
    requires WellFormed(c) && Inv(c, s)
    ensures |s.buffer| + |s.running| <= (c.maxAge + 1) * c.prompts
  {
    LiveTargets(c, s);
    CountRangeIsLength(s.buffer, s.weight, c.maxAge + 1);
    CountRangeIsLength(s.running, s.weight, c.maxAge + 1);
    forall t ensures Count(s.buffer, t, -1) + Count(s.running, t, -1) <= c.prompts {
      LiveCounts(c, s, t);
    }
    CountRangeBound(s.buffer, s.running, s.weight, c.maxAge + 1, c.prompts);
  }

  lemma PushFindsRoom(c: Params, s: State)
    requires WellFormed(c) && Inv(c, s) && |s.running| > 0
    ensures |s.buffer| < Capacity(c)
  {
    BufferBound(c, s);
    assert (c.maxAge + 1) * c.prompts <= 2 * c.maxAge * c.prompts by { ScaleBound(c.maxAge, c.prompts); }
    assert 2 * c.maxAge * c.prompts == Capacity(c);
  }

  lemma ScaleBound(a: nat, p: nat)
    requires a >= 1
    ensures (a + 1) * p <= 2 * a * p
  {
    assert 2 * a * p - (a + 1) * p == (a - 1) * p;
  }

  // ---------------------------------------------------------------- a fresh pick is new and highest

  lemma PickIsNew(c: Params, s: State)
    requires WellFormed(c) && Inv(c, s) && s.collector.GotLast? && Pick(c, s).Some? && Pick(c, s).value > s.last
    ensures var t := Pick(c, s).value;
            && t !in s.reserved
            && (forall r :: r in s.reserved ==> r < t)
            && s.collector.version <= t <= s.collector.version + c.maxAge
            && Base(c, s) <= t && c.start <= t
            && (forall u :: WindowLow(s.collector.version, c.start) <= u < t ==> u in s.reserved)
  {
    var t, v := Pick(c, s).value, s.collector.version;
    NextTargetIsLeastFree(v, c.start, c.maxAge, s.collector.seen, s.generating);
    assert t !in s.reserved;
    forall u | WindowLow(v, c.start) <= u < t ensures u in s.reserved {
      assert !Free(u, s.collector.seen, s.generating);
      if u !in s.generating {
        assert s.last in s.reserved;
        assert u == s.last || u in s.reserved;
      }
    }
  }

  // ---------------------------------------------------------------- one step keeps each part

  lemma ClockKept(c: Params, s: State, a: Action)
    requires WellFormed(c) && Inv(c, s) && Enabled(c, s, a)
    ensures Clock(c, Step(c, s, a))
  {
  }

  // Actions that reserve nothing, push nothing and release nothing.
  predicate Quiet(a: Action) {
    !a.Reserve? && !a.Push? && !a.ReleaseFirst? && !a.Finish?
  }

  lemma QuietKeepsReservations(c: Params, s: State, a: Action)
    requires WellFormed(c) && Inv(c, s) && Enabled(c, s, a) && Quiet(a) && !a.Sample?
    ensures Reservations(c, Step(c, s, a))
  {
    hide Ages, Balanced, Log;
    if a.Deliver? {
      DeliverKeepsReservations(c, s);
    }
  }

  lemma DeliverKeepsReservations(c: Params, s: State)
    requires WellFormed(c) && Inv(c, s) && Enabled(c, s, Deliver)
    ensures Reservations(c, Step(c, s, Deliver))
  {
    hide Ages, Balanced, Log;
    assert s.version <= s.mailbox[0];
  }

  lemma ReleaseKeepsReservations(c: Params, s: State, a: Action)
    requires WellFormed(c) && Inv(c, s) && Enabled(c, s, a) && (a.ReleaseFirst? || a.Finish?)
    ensures Reservations(c, Step(c, s, a))
  {
    assert s.closing[a.k] in s.closing;
  }

  lemma PushKeepsReservations(c: Params, s: State, k: nat)
    requires WellFormed(c) && Inv(c, s) && k < |s.running|
    ensures Reservations(c, Step(c, s, Push(k)))
  {
    assert s.running[k] in s.running;
    assert LiveGroup(c, s, s.running[k]);
  }

  lemma NoGapsAfter(reserved: seq<int>, t: int, low: int, newLow: int)
    requires NoGaps(reserved, low) && low <= newLow
    requires forall u :: low <= u < t ==> u in reserved
    ensures NoGaps(reserved + [t], newLow)
  {
    forall r, u | r in reserved + [t] && newLow <= u < r ensures u in reserved + [t] {
      assert u in reserved;
    }
  }

  lemma IncreasingSnoc(xs: seq<int>, t: int)
    requires Seqs.Increasing(xs) && forall x :: x in xs ==> x < t
    ensures Seqs.Increasing(xs + [t])
  {
    assert forall i :: 0 <= i < |xs| ==> xs[i] in xs;
  }

  lemma ReserveKeepsReservations(c: Params, s: State)
    requires WellFormed(c) && Inv(c, s) && Enabled(c, s, Reserve) && FreshStep(c, s, Reserve)
    ensures Reservations(c, Step(c, s, Reserve))
  {
    if Pick(c, s).Some? {
      PickIsNew(c, s);
      var t := Pick(c, s).value;
      var low, newLow := WindowLow(s.collector.version, c.start), WindowLow(s.version, c.start);
      NoGapsAfter(s.reserved, t, low, newLow);
      var after := Step(c, s, Reserve);
      assert after.reserved == s.reserved + [t] && after.generating == s.generating + {t};
      assert NoGaps(after.reserved, newLow);
      IncreasingSnoc(s.reserved, t);
      assert forall r :: r in after.reserved <==> r in s.reserved || r == t;
    }
  }

  lemma QuietKeepsAges(c: Params, s: State, a: Action)
    requires WellFormed(c) && Inv(c, s) && Enabled(c, s, a) && Quiet(a) && !a.Sample? && !a.Spawn?
    ensures Ages(c, Step(c, s, a))
  {
  }

  lemma ReleaseKeepsAges(c: Params, s: State, a: Action)
    requires WellFormed(c) && Inv(c, s) && Enabled(c, s, a) && (a.ReleaseFirst? || a.Finish?)
    ensures Ages(c, Step(c, s, a))
  {
  }

  lemma RemoveAtIn<X>(xs: seq<X>, k: nat)
    requires k < |xs|
    ensures forall x :: x in RemoveAt(xs, k) ==> x in xs
  {
  }

  lemma PushKeepsAges(c: Params, s: State, k: nat)
    requires WellFormed(c) && Inv(c, s) && k < |s.running|
    ensures Ages(c, Step(c, s, Push(k)))
  {
    var g := s.running[k];
    var after := Step(c, s, Push(k));
    assert LiveGroup(c, s, g);
    RemoveAtIn(s.running, k);
    assert forall e :: LiveGroup(c, s, e) ==> LiveGroup(c, after, e);
    forall e | e in after.buffer ensures LiveGroup(c, after, e) && e.target <= after.last {
      assert e in s.buffer || e == g;
    }
    forall e | e in after.closing ensures e.target in after.reserved && e.target <= after.last {
      assert e in s.closing || e == g;
    }
  }

  lemma SpawnKeepsAges(c: Params, s: State)
    requires WellFormed(c) && Inv(c, s) && Enabled(c, s, Spawn)
    ensures Ages(c, Step(c, s, Spawn))
  {
    var e := Entry(s.collector.version, s.collector.target, s.collector.next);
    assert LiveGroup(c, s, e);
  }

  lemma ReserveKeepsAges(c: Params, s: State)
    requires WellFormed(c) && Inv(c, s) && Enabled(c, s, Reserve) && FreshStep(c, s, Reserve)
    ensures Ages(c, Step(c, s, Reserve))
  {
    if Pick(c, s).Some? {
      PickIsNew(c, s);
      var t := Pick(c, s).value;
      assert forall r :: r in s.reserved + [t] <==> r in s.reserved || r == t;
    }
  }

  lemma PushTotal(c: Params, s: State, k: nat, t: int, p: int)
    requires k < |s.running|
    ensures Total(c, Step(c, s, Push(k)), t, p) == Total(c, s, t, p)
  {
    CountRemoveAt(s.running, k, t, p);
    CountSnoc(s.buffer, s.running[k], t, p);
    hide Count, RemoveAt;
  }

  lemma PushKeepsBalance(c: Params, s: State, k: nat)
    requires WellFormed(c) && Inv(c, s) && k < |s.running|
    ensures Balanced(c, Step(c, s, Push(k)))
  {
    hide Total;
    var after := Step(c, s, Push(k));
    forall t, p | p >= -1 ensures Total(c, after, t, p) == Expected(c, after, t, p) {
      PushTotal(c, s, k, t, p);
      assert Total(c, s, t, p) == Expected(c, s, t, p);
    }
  }

  lemma SpawnKeepsBalance(c: Params, s: State)
    requires WellFormed(c) && Inv(c, s) && Enabled(c, s, Spawn)
    ensures Balanced(c, Step(c, s, Spawn))
  {
    var after := Step(c, s, Spawn);
    var e := Entry(s.collector.version, s.collector.target, s.collector.next);
    forall t, p | p >= -1 ensures Total(c, after, t, p) == Expected(c, after, t, p) {
      assert Total(c, s, t, p) == Expected(c, s, t, p);
      CountSnoc(s.running, e, t, p);
    }
  }

  lemma ReserveKeepsBalance(c: Params, s: State)
    requires WellFormed(c) && Inv(c, s) && Enabled(c, s, Reserve) && FreshStep(c, s, Reserve)
    ensures Balanced(c, Step(c, s, Reserve))
  {
    var after := Step(c, s, Reserve);
    if Pick(c, s).Some? {
      PickIsNew(c, s);
    }
    forall t, p | p >= -1 ensures Total(c, after, t, p) == Expected(c, after, t, p) {
      assert Total(c, s, t, p) == Expected(c, s, t, p);
    }
  }

  lemma OthersKeepBalance(c: Params, s: State, a: Action)
    requires WellFormed(c) && Inv(c, s) && Enabled(c, s, a)
    requires !a.Push? && !a.Spawn? && !a.Reserve? && !a.Sample?
    ensures Balanced(c, Step(c, s, a))
  {
    var after := Step(c, s, a);
    forall t, p | p >= -1 ensures Total(c, after, t, p) == Expected(c, after, t, p) {
      assert Total(c, s, t, p) == Expected(c, s, t, p);
    }
  }

  // ---------------------------------------------------------------- sampling

  // No group is older than the window, so sample never raises.
  lemma SampleDoesNotRaise(c: Params, s: State)
    requires WellFormed(c) && Inv(c, s) && s.phase == Sampling
    ensures !Outcome(s.buffer, c.prompts, s.weight, c.maxAge).Raised?
  {
    forall i | 0 <= i < |s.buffer| ensures s.buffer[i].version >= MinValid(s.weight, c.maxAge) {
      assert s.buffer[i] in s.buffer;
      assert LiveGroup(c, s, s.buffer[i]);
    }
  }

  lemma TakenGroups(c: Params, s: State)
    requires WellFormed(c) && Outcome(s.buffer, c.prompts, s.weight, c.maxAge).Sampled?
    ensures var taken := TakeWanted(s.buffer, s.weight, c.maxAge, c.prompts);
            && |taken| == c.prompts
            && Count(taken, s.weight, -1) == c.prompts
            && (forall e :: e in taken ==> e.target == s.weight && e in s.buffer)
  {
    var taken := TakeWanted(s.buffer, s.weight, c.maxAge, c.prompts);
    TakeLength(s.buffer, s.weight, c.maxAge, c.prompts);
    TakenAreWanted(s.buffer, s.weight, c.maxAge, c.prompts);
    AllMatchCount(taken, s.weight);
    TakenWereThere(s.buffer, s.weight, c.maxAge, c.prompts);
  }

  lemma {:induction false} TakenWereThere(es: seq<Group>, current: int, maxAge: int, n: nat)
    ensures forall e :: e in TakeWanted(es, current, maxAge, n) ==> e in es
  {
    if |es| > 0 {
      TakenWereThere(es[..|es| - 1], current, maxAge, n);
    }
  }

  // A successful sample takes every group of the current step: none is left in the buffer,
  // with a worker, or to be spawned.
  lemma SampledCounts(c: Params, s: State)
    requires WellFormed(c) && Inv(c, s) && Outcome(s.buffer, c.prompts, s.weight, c.maxAge).Sampled?
    requires s.phase == Sampling
    ensures s.weight in s.reserved
    ensures Count(DropWanted(s.buffer, s.weight, c.maxAge, c.prompts), s.weight, -1) == 0
    ensures Count(s.running, s.weight, -1) == 0
    ensures Unspawned(c, s, s.weight, -1) == 0
  {
    TakenGroups(c, s);
    CountTakeDrop(s.buffer, s.weight, c.maxAge, c.prompts, s.weight, -1);
    assert Total(c, s, s.weight, -1) == Expected(c, s, s.weight, -1);
  }

  lemma SampledCountsEach(c: Params, s: State, p: int)
    requires WellFormed(c) && Inv(c, s) && Outcome(s.buffer, c.prompts, s.weight, c.maxAge).Sampled?
    requires s.phase == Sampling && p >= -1
    ensures Count(DropWanted(s.buffer, s.weight, c.maxAge, c.prompts), s.weight, p) == 0
    ensures Count(s.running, s.weight, p) == 0
    ensures Unspawned(c, s, s.weight, p) == 0
  {
    SampledCounts(c, s);
    CountAtMostTotal(DropWanted(s.buffer, s.weight, c.maxAge, c.prompts), s.weight, p);
    CountAtMostTotal(s.running, s.weight, p);
  }

  lemma SampleTotal(c: Params, s: State, t: int, p: int)
    requires WellFormed(c) && Inv(c, s) && Outcome(s.buffer, c.prompts, s.weight, c.maxAge).Sampled?
    requires s.phase == Sampling && p >= -1
    ensures Total(c, SampleStep(c, s), t, p) == Expected(c, SampleStep(c, s), t, p)
  {
    hide Count, DropWanted, TakeWanted;
    assert Total(c, s, t, p) == Expected(c, s, t, p);
    if t == s.weight {
      SampledCountsEach(c, s, p);
    } else {
      SampleCount(c, s, t, p);
    }
  }

  lemma SampleKeepsBalance(c: Params, s: State)
    requires WellFormed(c) && Inv(c, s) && Enabled(c, s, Sample)
    ensures Balanced(c, SampleStep(c, s))
  {
    SampleDoesNotRaise(c, s);
    if Outcome(s.buffer, c.prompts, s.weight, c.maxAge).Sampled? {
      forall t, p | p >= -1 ensures Total(c, SampleStep(c, s), t, p) == Expected(c, SampleStep(c, s), t, p) {
        SampleTotal(c, s, t, p);
      }
    }
    hide Total, Expected, Outcome;
  }

  // Sampling removes groups of the current step only.
  lemma SampleCount(c: Params, s: State, t: int, p: int)
    requires t != s.weight
    ensures Count(DropWanted(s.buffer, s.weight, c.maxAge, c.prompts), t, p) == Count(s.buffer, t, p)
  {
    var taken := TakeWanted(s.buffer, s.weight, c.maxAge, c.prompts);
    TakenAreWanted(s.buffer, s.weight, c.maxAge, c.prompts);
    NoneToCount(taken, t, p);
    CountTakeDrop(s.buffer, s.weight, c.maxAge, c.prompts, t, p);
  }

  lemma SampledEachOnce(c: Params, s: State, p: int)
    requires WellFormed(c) && Inv(c, s) && Outcome(s.buffer, c.prompts, s.weight, c.maxAge).Sampled?
    requires s.phase == Sampling && 0 <= p < c.prompts
    ensures Count(TakeWanted(s.buffer, s.weight, c.maxAge, c.prompts), s.weight, p) == 1
  {
    hide Count, TakeWanted, DropWanted, Outcome;
    SampledCounts(c, s);
    SampledCountsEach(c, s, p);
    CountTakeDrop(s.buffer, s.weight, c.maxAge, c.prompts, s.weight, p);
    assert Total(c, s, s.weight, p) == Expected(c, s, s.weight, p);
  }

  lemma SampleKeepsLog(c: Params, s: State)
    requires WellFormed(c) && Inv(c, s) && Enabled(c, s, Sample)
    ensures Log(c, SampleStep(c, s))
  {
    hide Count, TakeWanted, DropWanted, Balanced;
    SampleDoesNotRaise(c, s);
    if Outcome(s.buffer, c.prompts, s.weight, c.maxAge).Sampled? {
      TakenGroups(c, s);
      var taken := TakeWanted(s.buffer, s.weight, c.maxAge, c.prompts);
      forall p | 0 <= p < c.prompts ensures Count(taken, s.weight, p) == 1 {
        SampledEachOnce(c, s, p);
      }
      forall e | e in taken ensures GoodAge(c, e) { assert LiveGroup(c, s, e); }
      assert CompleteBatch(c, taken, s.weight);
    }
  }

  lemma SampleKeepsReservations(c: Params, s: State)
    requires WellFormed(c) && Inv(c, s) && Enabled(c, s, Sample)
    ensures Reservations(c, SampleStep(c, s))
  {
    SampleDoesNotRaise(c, s);
    if Outcome(s.buffer, c.prompts, s.weight, c.maxAge).Sampled? {
      TakenGroups(c, s);
      var taken := TakeWanted(s.buffer, s.weight, c.maxAge, c.prompts);
      assert taken[0] in taken;
      assert s.weight <= s.last;
    }
  }

  lemma LeftAges(c: Params, s: State)
    requires WellFormed(c) && Inv(c, s) && Outcome(s.buffer, c.prompts, s.weight, c.maxAge).Sampled?
    requires s.phase == Sampling
    ensures forall e :: e in DropWanted(s.buffer, s.weight, c.maxAge, c.prompts) ==>
              GoodAge(c, e) && s.weight + 1 <= e.target <= s.last && e.target in s.reserved
  {
    SampledCounts(c, s);
    DropIsSubset(s.buffer, s.weight, c.maxAge, c.prompts);
    var left := DropWanted(s.buffer, s.weight, c.maxAge, c.prompts);
    hide DropWanted, Count, Outcome;
    forall e | e in left
      ensures GoodAge(c, e) && s.weight + 1 <= e.target <= s.last && e.target in s.reserved
    {
      assert LiveGroup(c, s, e);
      CountedIsThere(left, e);
    }
  }

  lemma RunningAges(c: Params, s: State)
    requires WellFormed(c) && Inv(c, s) && Outcome(s.buffer, c.prompts, s.weight, c.maxAge).Sampled?
    requires s.phase == Sampling
    ensures forall e :: e in s.running ==> GoodAge(c, e) && s.weight + 1 <= e.target && e.target in s.reserved
  {
    SampledCounts(c, s);
    hide DropWanted, Count, Outcome;
    forall e | e in s.running ensures GoodAge(c, e) && s.weight + 1 <= e.target && e.target in s.reserved {
      assert LiveGroup(c, s, e);
      CountedIsThere(s.running, e);
    }
  }

  lemma SampleKeepsAges(c: Params, s: State)
    requires WellFormed(c) && Inv(c, s) && Enabled(c, s, Sample)
    ensures Ages(c, SampleStep(c, s))
  {
    hide DropWanted, TakeWanted, Count, Balanced, Log, Outcome;
    SampleDoesNotRaise(c, s);
    if Outcome(s.buffer, c.prompts, s.weight, c.maxAge).Sampled? {
      LeftAges(c, s);
      RunningAges(c, s);
      SampledCounts(c, s);
      SpawnAgesAfterSample(c, s);
    }
  }

  lemma SpawnAgesAfterSample(c: Params, s: State)
    requires WellFormed(c) && Inv(c, s) && s.phase == Sampling && Unspawned(c, s, s.weight, -1) == 0
    ensures s.collector.Spawning? && s.collector.next < c.prompts ==>
              s.weight + 1 <= s.collector.target
  {
    hide Balanced, Log, Count;
  }

  // ---------------------------------------------------------------- whole runs

  lemma ReserveKeepsInv(c: Params, s: State)
    requires WellFormed(c) && Inv(c, s) && Enabled(c, s, Reserve) && FreshStep(c, s, Reserve)
    ensures Inv(c, Step(c, s, Reserve))
  {
    ClockKept(c, s, Reserve);
    ReserveKeepsReservations(c, s);
    ReserveKeepsAges(c, s);
    ReserveKeepsBalance(c, s);
    hide Clock, Reservations, Ages, Balanced;
  }

  lemma PushKeepsInv(c: Params, s: State, k: nat)
    requires WellFormed(c) && Inv(c, s) && k < |s.running|
    ensures Inv(c, Step(c, s, Push(k)))
  {
    ClockKept(c, s, Push(k));
    PushKeepsReservations(c, s, k);
    PushKeepsAges(c, s, k);
    PushKeepsBalance(c, s, k);
    hide Clock, Reservations, Ages, Balanced;
  }

  lemma SpawnKeepsInv(c: Params, s: State)
    requires WellFormed(c) && Inv(c, s) && Enabled(c, s, Spawn)
    ensures Inv(c, Step(c, s, Spawn))
  {
    ClockKept(c, s, Spawn);
    QuietKeepsReservations(c, s, Spawn);
    SpawnKeepsAges(c, s);
    SpawnKeepsBalance(c, s);
    hide Clock, Reservations, Ages, Balanced;
  }

  lemma SampleKeepsInv(c: Params, s: State)
    requires WellFormed(c) && Inv(c, s) && Enabled(c, s, Sample)
    ensures Inv(c, Step(c, s, Sample))
  {
    ClockKept(c, s, Sample);
    SampleDoesNotRaise(c, s);
    SampleKeepsReservations(c, s);
    SampleKeepsAges(c, s);
    SampleKeepsBalance(c, s);
    SampleKeepsLog(c, s);
    hide Clock, Reservations, Ages, Balanced, Log;
  }

  lemma StepKeepsInv(c: Params, s: State, a: Action)
    requires WellFormed(c) && Inv(c, s) && Enabled(c, s, a) && FreshStep(c, s, a)
    ensures Inv(c, Step(c, s, a))
  {
    hide Inv, Step;
    match a
    case Reserve => ReserveKeepsInv(c, s);
    case Push(k) => PushKeepsInv(c, s, k);
    case Spawn => SpawnKeepsInv(c, s);
    case Sample => SampleKeepsInv(c, s);
    case _ => OthersKeepInv(c, s, a);
  }

  lemma OthersKeepInv(c: Params, s: State, a: Action)
    requires WellFormed(c) && Inv(c, s) && Enabled(c, s, a)
    requires !a.Push? && !a.Spawn? && !a.Reserve? && !a.Sample?
    ensures Inv(c, Step(c, s, a))
  {
    ClockKept(c, s, a);
    OthersKeepBalance(c, s, a);
    if Quiet(a) {
      QuietKeepsReservations(c, s, a);
      QuietKeepsAges(c, s, a);
    } else {
      ReleaseKeepsReservations(c, s, a);
      ReleaseKeepsAges(c, s, a);
    }
  }

  lemma InitInv(c: Params)
    requires WellFormed(c)
    ensures Inv(c, Init(c))
  {
  }

  // Every state of every fresh run satisfies the invariant.
  lemma {:induction false} RunInv(c: Params, acts: seq<Action>)
    requires WellFormed(c) && FreshRun(c, acts) && Run(c, acts).Some?
    ensures Inv(c, Run(c, acts).value)
  {
    if |acts| == 0 {
      InitInv(c);
    } else {
      RunInv(c, acts[..|acts| - 1]);
      StepKeepsInv(c, Run(c, acts[..|acts| - 1]).value, acts[|acts| - 1]);
    }
  }
}
