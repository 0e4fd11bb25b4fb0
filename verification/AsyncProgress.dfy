/** When asynchronous GRPO can still train. */
module AsyncProgress {
  import opened Wrappers
  import opened Arith
  import opened ReplayBuffers
  import opened Collectors
  import opened AsyncProtocol
  import opened AsyncTheorems

  // The exact condition under which some schedule trains again, and two schedules after which none does.

  // Generation with weights `version` may serve `step`.
  predicate Serves(c: Params, version: int, step: int) {
    WindowLow(version, c.start) <= step <= version + c.maxAge
  }

  // The trainer waits for a step that nobody reserved, the newest weights no longer serve it, and
  // a batch that the collector has begun without choosing its step yet will not choose this one.
  predicate Doomed(c: Params, s: State) {
    && s.phase == Sampling
    && s.weight !in s.reserved
    && s.weight < WindowLow(s.version, c.start)
    && (s.collector.GotVersion? ==> !Serves(c, s.collector.version, s.weight))
    && (s.collector.GotLast? ==> Pick(c, s) != Some(s.weight))
  }

  // ---------------------------------------------------------------- nothing trains a doomed step

  // What remains true of a doomed state even when later reservations are stale.
  ghost predicate Barren(c: Params, s: State) {
    && s.phase == Sampling
    && s.mailbox == []
    && s.weight < WindowLow(s.version, c.start)
    && s.weight !in s.generating
    && (forall e :: e in s.buffer ==> e.target != s.weight)
    && (forall e :: e in s.running ==> e.target != s.weight)
    && (s.collector.GotVersion? ==> !Serves(c, s.collector.version, s.weight))
    && (s.collector.GotLast? ==> Pick(c, s) != Some(s.weight))
    && (s.collector.Spawning? ==> s.collector.target != s.weight)
  }

  lemma DoomedIsBarren(c: Params, s: State)
    requires WellFormed(c) && Inv(c, s) && Doomed(c, s)
    ensures Barren(c, s)
  {
    forall e | e in s.buffer || e in s.running ensures e.target != s.weight {
      assert LiveGroup(c, s, e);
    }
  }

  // Giving reservations back never makes the collector choose a step it did not choose before.
  lemma PickNotGained(c: Params, version: int, seen: int, generating: set<int>, fewer: set<int>, step: int)
    requires fewer <= generating && step !in generating
    requires NextTarget(version, c.start, c.maxAge, seen, generating) != Some(step)
    ensures NextTarget(version, c.start, c.maxAge, seen, fewer) != Some(step)
  {
    NextTargetIsLeastFree(version, c.start, c.maxAge, seen, generating);
    NextTargetIsLeastFree(version, c.start, c.maxAge, seen, fewer);
    if NextTarget(version, c.start, c.maxAge, seen, fewer) == Some(step) {
      assert Free(step, seen, generating);
      var t := NextTarget(version, c.start, c.maxAge, seen, generating).value;
      assert Free(t, seen, fewer);
    }
  }

  lemma NoSample(c: Params, s: State)
    requires WellFormed(c) && Barren(c, s)
    ensures !Outcome(s.buffer, c.prompts, s.weight, c.maxAge).Sampled?
  {
    NothingWanted(s.buffer, s.weight, c.maxAge);
  }

  lemma PushStaysBarren(c: Params, s: State, k: nat)
    requires WellFormed(c) && Barren(c, s) && k < |s.running|
    ensures Barren(c, Step(c, s, Push(k)))
  {
    RemoveAtIn(s.running, k);
    assert s.running[k] in s.running;
  }

  lemma BatchStaysBarren(c: Params, s: State, a: Action)
    requires WellFormed(c) && Barren(c, s) && Enabled(c, s, a)
    requires a.StartBatch? || a.ReadLast? || a.Reserve? || a.RereadVersion? || a.Spawn? || a.EndBatch?
    ensures Barren(c, Step(c, s, a))
  {
    if a.ReadLast? {
      NextTargetIsLeastFree(s.collector.version, c.start, c.maxAge, s.last, s.generating);
    }
  }

  lemma ReleaseStaysBarren(c: Params, s: State, a: Action)
    requires WellFormed(c) && Barren(c, s) && Enabled(c, s, a) && (a.ReleaseFirst? || a.Finish?)
    ensures Barren(c, Step(c, s, a))
  {
    if s.collector.GotLast? {
      PickNotGained(c, s.collector.version, s.collector.seen, s.generating, s.generating - {s.closing[a.k].target}, s.weight);
    }
  }

  // Whatever happens next, fresh or not, nothing is trained on.
  lemma BarrenStays(c: Params, s: State, a: Action)
    requires WellFormed(c) && Barren(c, s) && Enabled(c, s, a)
    ensures Barren(c, Step(c, s, a))
    ensures Step(c, s, a).weight == s.weight && Step(c, s, a).trained == s.trained
  {
    match a
    case Push(k) => PushStaysBarren(c, s, k);
    case ReleaseFirst(_) => ReleaseStaysBarren(c, s, a);
    case Finish(_) => ReleaseStaysBarren(c, s, a);
    case Sample => NoSample(c, s);
    case Refit =>
    case Deliver =>
    case _ => BatchStaysBarren(c, s, a);
  }

  lemma {:induction false} BarrenForever(c: Params, acts: seq<Action>, more: seq<Action>)
    requires WellFormed(c) && Run(c, acts + more).Some?
    requires Run(c, acts).Some? && Barren(c, Run(c, acts).value)
    ensures Barren(c, Run(c, acts + more).value)
    ensures Run(c, acts + more).value.weight == Run(c, acts).value.weight
    ensures Run(c, acts + more).value.trained == Run(c, acts).value.trained
  {
    if |more| == 0 {
      assert acts + more == acts;
    } else {
      var before := acts + more[..|more| - 1];
      assert (acts + more)[..|acts + more| - 1] == before;
      BarrenForever(c, acts, more[..|more| - 1]);
      BarrenStays(c, Run(c, before).value, more[|more| - 1]);
    }
  }

  // From a doomed state at the end of a fresh run no continuation at all trains again.
  lemma DoomedForever(c: Params, acts: seq<Action>, more: seq<Action>)
    requires WellFormed(c) && FreshRun(c, acts) && Run(c, acts).Some? && Doomed(c, Run(c, acts).value)
    requires Run(c, acts + more).Some?
    ensures Run(c, acts + more).value.weight == Run(c, acts).value.weight
    ensures Run(c, acts + more).value.trained == Run(c, acts).value.trained
  {
    RunInv(c, acts);
    DoomedIsBarren(c, Run(c, acts).value);
    BarrenForever(c, acts, more);
  }

  // ---------------------------------------------------------------- finishing what has begun

  // Between the two states only workers moved: the clock and the histories stand still.
  ghost predicate OnlyWorkersMoved(s: State, s': State) {
    && s'.weight == s.weight && s'.phase == s.phase && s'.mailbox == s.mailbox && s'.version == s.version
    && s'.reserved == s.reserved && s'.trained == s.trained && s'.generating <= s.generating
  }

  predicate NoWorkers(s: State) {
    s.running == [] && s.closing == []
  }

  // One fresh step further along a run.
  lemma Proceed(c: Params, acts: seq<Action>, s: State, a: Action) returns (acts': seq<Action>, s': State)
    requires WellFormed(c) && Inv(c, s) && Run(c, acts) == Some(s) && Enabled(c, s, a) && FreshStep(c, s, a)
    ensures acts <= acts' && Run(c, acts') == Some(s') && s' == Step(c, s, a) && Inv(c, s')
  {
    acts', s' := Extend(c, acts, s, a);
    StepKeepsInv(c, s, a);
  }

  // Every worker pushes and ends.
  lemma {:induction false} FinishWorkers(c: Params, acts: seq<Action>, s: State) returns (acts': seq<Action>, s': State)
    requires WellFormed(c) && Inv(c, s) && Run(c, acts) == Some(s)
    ensures acts <= acts' && Run(c, acts') == Some(s') && Inv(c, s')
    ensures NoWorkers(s') && OnlyWorkersMoved(s, s') && s'.collector == s.collector
    decreases 2 * |s.running| + |s.closing|
  {
    hide Inv, Run, FreshRun, Pick;
    if |s.running| > 0 {
      PushFindsRoom(c, s);
      var a1, s1 := Proceed(c, acts, s, Push(0));
      acts', s' := FinishWorkers(c, a1, s1);
    } else if |s.closing| > 0 {
      var a1, s1 := Proceed(c, acts, s, Finish(0));
      acts', s' := FinishWorkers(c, a1, s1);
    } else {
      acts', s' := acts, s;
    }
  }

  // The batch that the collector is spawning is spawned to its end.
  lemma {:induction false} FinishBatch(c: Params, acts: seq<Action>, s: State) returns (acts': seq<Action>, s': State)
    requires WellFormed(c) && Inv(c, s) && Run(c, acts) == Some(s)
    requires s.collector.Spawning? && s.collector.next <= c.prompts
    ensures acts <= acts' && Run(c, acts') == Some(s') && Inv(c, s')
    ensures NoWorkers(s') && OnlyWorkersMoved(s, s') && s'.collector.Idle?
    decreases c.prompts - s.collector.next
  {
    hide Inv, Run, FreshRun, Pick;
    var a1, s1 := FinishWorkers(c, acts, s);
    if s.collector.next == c.prompts {
      acts', s' := Proceed(c, a1, s1, EndBatch);
    } else {
      var a2, s2 := Proceed(c, a1, s1, Spawn);
      acts', s' := FinishBatch(c, a2, s2);
    }
  }

  // ---------------------------------------------------------------- a reserved step can be trained on

  lemma {:induction false} CountedAreWanted(es: seq<Group>, current: int, maxAge: int)
    requires forall e :: e in es && e.target == current ==> InWindow(e.version, current, maxAge)
    ensures CountWanted(es, current, maxAge) == Count(es, current, -1)
  {
    if |es| > 0 {
      assert es[|es| - 1] in es;
      CountedAreWanted(es[..|es| - 1], current, maxAge);
    }
  }

  lemma EnoughWanted(c: Params, s: State)
    requires WellFormed(c) && s.phase == Sampling
    requires CountWanted(s.buffer, s.weight, c.maxAge) >= c.prompts
    requires !Outcome(s.buffer, c.prompts, s.weight, c.maxAge).Raised?
    ensures |SampleStep(c, s).trained| > |s.trained|
  {
    WantedAtMostValid(s.buffer, s.weight, c.maxAge);
  }

  lemma ReservedIsWanted(c: Params, s: State)
    requires WellFormed(c) && Inv(c, s) && s.phase == Sampling && s.weight in s.reserved
    requires NoWorkers(s) && !s.collector.Spawning?
    ensures CountWanted(s.buffer, s.weight, c.maxAge) == c.prompts
  {
    forall e | e in s.buffer && e.target == s.weight ensures InWindow(e.version, s.weight, c.maxAge) {
      assert LiveGroup(c, s, e);
    }
    CountedAreWanted(s.buffer, s.weight, c.maxAge);
    assert Total(c, s, s.weight, -1) == Expected(c, s, s.weight, -1);
  }

  lemma TrainReserved(c: Params, acts: seq<Action>, s: State) returns (acts': seq<Action>, s': State)
    requires WellFormed(c) && Inv(c, s) && Run(c, acts) == Some(s)
    requires s.phase == Sampling && s.weight in s.reserved
    ensures acts <= acts' && Run(c, acts') == Some(s') && |s'.trained| > |s.trained|
  {
    var a1, s1;
    if s.collector.Spawning? {
      a1, s1 := FinishBatch(c, acts, s);
    } else {
      a1, s1 := FinishWorkers(c, acts, s);
    }
    ReservedIsWanted(c, s1);
    SampleDoesNotRaise(c, s1);
    EnoughWanted(c, s1);
    acts', s' := Extend(c, a1, s1, Sample);
    hide Run, FreshRun, Pick, Outcome, SampleStep;
  }

  // ---------------------------------------------------------------- an unreserved step that can still be picked

  lemma FirstIsIn<X>(xs: seq<X>)
    ensures xs == [] || xs[0] in xs
  {
  }

  // As long as the collector's weights do not lie beyond the awaited step, every reservation lies
  // below it, so nothing is buffered or running.
  lemma AwaitedIsNext(c: Params, s: State)
    requires WellFormed(c) && Inv(c, s) && s.phase == Sampling && s.weight !in s.reserved
    requires WindowLow(CollectorVersion(s), c.start) <= s.weight
    ensures s.last < s.weight && s.weight !in s.generating
    ensures s.weight == c.start || s.weight - 1 == s.last
    ensures s.buffer == [] && s.running == []
  {
    assert s.last != -1 ==> s.last in s.reserved;
    FirstIsIn(s.buffer);
    FirstIsIn(s.running);
  }

  lemma TrainPicked(c: Params, acts: seq<Action>, s: State) returns (acts': seq<Action>, s': State)
    requires WellFormed(c) && Inv(c, s) && Run(c, acts) == Some(s) && s.phase == Sampling
    requires s.weight !in s.reserved && s.collector.GotLast? && Pick(c, s) == Some(s.weight)
    ensures acts <= acts' && Run(c, acts') == Some(s') && |s'.trained| > |s.trained|
  {
    NextTargetIsLeastFree(s.collector.version, c.start, c.maxAge, s.collector.seen, s.generating);
    AwaitedIsNext(c, s);
    var a1, s1 := Proceed(c, acts, s, Reserve);
    assert s1.weight in s1.reserved;
    acts', s' := TrainReserved(c, a1, s1);
    hide Run, FreshRun, Inv;
  }

  // The choice of a collector that has read the buffer's present answer.
  lemma ServedIsPicked(c: Params, version: int, last: int, generating: set<int>, step: int)
    requires Serves(c, version, step) && last < step && step !in generating
    requires version >= c.start && (step == c.start || step - 1 <= last)
    ensures NextTarget(version, c.start, c.maxAge, last, generating) == Some(step)
  {
    NextTargetIsLeastFree(version, c.start, c.maxAge, last, generating);
    assert Free(step, last, generating);
  }

  lemma TrainServed(c: Params, acts: seq<Action>, s: State) returns (acts': seq<Action>, s': State)
    requires WellFormed(c) && Inv(c, s) && Run(c, acts) == Some(s) && s.phase == Sampling
    requires s.weight !in s.reserved && s.collector.GotVersion? && Serves(c, s.collector.version, s.weight)
    ensures acts <= acts' && Run(c, acts') == Some(s') && |s'.trained| > |s.trained|
  {
    AwaitedIsNext(c, s);
    ServedIsPicked(c, s.collector.version, s.last, s.generating, s.weight);
    var a1, s1 := Proceed(c, acts, s, ReadLast);
    acts', s' := TrainPicked(c, a1, s1);
    hide Run, FreshRun, Inv;
  }

  // Versions are delivered until they serve the awaited step.
  lemma {:induction false} CatchUp(c: Params, acts: seq<Action>, s: State) returns (acts': seq<Action>, s': State)
    requires WellFormed(c) && Inv(c, s) && Run(c, acts) == Some(s)
    requires WindowLow(s.version, c.start) <= s.weight
    ensures acts <= acts' && Run(c, acts') == Some(s') && Inv(c, s')
    ensures s' == s.(version := s'.version, mailbox := s'.mailbox)
    ensures Serves(c, s'.version, s'.weight) && c.start <= s'.version
    decreases |s.mailbox|
  {
    if s.weight <= s.version + c.maxAge {
      acts', s' := acts, s;
    } else {
      var a1, s1 := Proceed(c, acts, s, Deliver);
      acts', s' := CatchUp(c, a1, s1);
      hide Run, FreshRun, Pick, Reservations, Ages, Balanced, Log;
    }
  }

  lemma TrainFromIdle(c: Params, acts: seq<Action>, s: State) returns (acts': seq<Action>, s': State)
    requires WellFormed(c) && Inv(c, s) && Run(c, acts) == Some(s) && s.phase == Sampling
    requires s.weight !in s.reserved && s.collector.Idle? && WindowLow(s.version, c.start) <= s.weight
    ensures acts <= acts' && Run(c, acts') == Some(s') && |s'.trained| > |s.trained|
  {
    hide Run, FreshRun, Inv, Pick;
    var a1, s1 := CatchUp(c, acts, s);
    var a2, s2 := Proceed(c, a1, s1, StartBatch);
    acts', s' := TrainServed(c, a2, s2);
  }

  // ---------------------------------------------------------------- past a stale reservation

  // The groups of the first n prompts.
  function Groups(version: int, target: int, n: nat): seq<Group> {
    if n == 0 then [] else Groups(version, target, n - 1) + [Entry(version, target, n - 1)]
  }

  lemma {:induction false} GroupsLength(version: int, target: int, n: nat)
    ensures |Groups(version, target, n)| == n
    ensures forall e :: e in Groups(version, target, n) ==> e.version == version
  {
    if n > 0 {
      GroupsLength(version, target, n - 1);
    }
  }

  lemma {:induction false} GroupsWanted(es: seq<Group>, version: int, target: int, n: nat, maxAge: int)
    requires InWindow(version, target, maxAge)
    ensures CountWanted(es + Groups(version, target, n), target, maxAge) >= n
  {
    if n > 0 {
      GroupsWanted(es, version, target, n - 1, maxAge);
      var all := es + Groups(version, target, n);
      assert all[..|all| - 1] == es + Groups(version, target, n - 1);
    }
  }

  // The rest of a batch is spawned, each worker pushing and ending before the next one starts.
  lemma {:induction false} ServeRest(c: Params, acts: seq<Action>, s: State, others: seq<Group>)
    returns (acts': seq<Action>, s': State)
    requires WellFormed(c) && Run(c, acts) == Some(s) && NoWorkers(s)
    requires s.collector.Spawning? && s.collector.next < c.prompts
    requires s.buffer == others + Groups(s.collector.version, s.collector.target, s.collector.next)
    requires |s.buffer| + c.prompts - s.collector.next <= Capacity(c)
    ensures acts <= acts' && Run(c, acts') == Some(s')
    ensures s' == s.(collector := Idle, generating := s.generating - {s.collector.target},
                     last := Max(s.last, s.collector.target),
                     buffer := others + Groups(s.collector.version, s.collector.target, c.prompts))
    decreases c.prompts - s.collector.next
  {
    hide Run, FreshRun, Pick, MaxInflight, Capacity;
    var a1, s1 := ServeOne(c, acts, s);
    if s1.collector.next == c.prompts {
      acts', s' := Extend(c, a1, s1, EndBatch);
    } else {
      acts', s' := ServeRest(c, a1, s1, others);
    }
  }

  lemma ServeOne(c: Params, acts: seq<Action>, s: State) returns (acts': seq<Action>, s': State)
    requires WellFormed(c) && Run(c, acts) == Some(s) && NoWorkers(s)
    requires s.collector.Spawning? && s.collector.next < c.prompts && |s.buffer| < Capacity(c)
    ensures acts <= acts' && Run(c, acts') == Some(s')
    ensures s' == s.(collector := s.collector.(next := s.collector.next + 1),
                     generating := s.generating - {s.collector.target}, last := Max(s.last, s.collector.target),
                     buffer := s.buffer + [Entry(s.collector.version, s.collector.target, s.collector.next)])
  {
    hide Run, FreshRun, Pick;
    var a1, s1 := Extend(c, acts, s, Spawn);
    var a2, s2 := Extend(c, a1, s1, Push(0));
    acts', s' := Extend(c, a2, s2, Finish(0));
    assert s'.running == [] && s'.closing == [];
  }

  // Whatever step the collector picks, fresh or not, it is served with the newest weights.
  lemma ServePick(c: Params, acts: seq<Action>, s: State, t: int) returns (acts': seq<Action>, s': State)
    requires WellFormed(c) && Run(c, acts) == Some(s) && NoWorkers(s)
    requires s.collector.GotLast? && Pick(c, s) == Some(t) && |s.buffer| + c.prompts <= Capacity(c)
    ensures acts <= acts' && Run(c, acts') == Some(s')
    ensures s' == s.(collector := Idle, generating := s.generating - {t}, last := Max(s.last, t),
                     buffer := s.buffer + Groups(s.version, t, c.prompts), reserved := s.reserved + [t])
  {
    hide Run, FreshRun, Pick, Capacity;
    var a1, s1 := Extend(c, acts, s, Reserve);
    var a2, s2 := Extend(c, a1, s1, RereadVersion);
    assert s2.buffer == s.buffer + Groups(s.version, t, 0);
    acts', s' := ServeRest(c, a2, s2, s.buffer);
    assert s.generating + {t} - {t} == s.generating - {t};
  }

  // An idle collector without workers serves the awaited step behind the groups of a stale batch.
  lemma TrainBehind(c: Params, acts: seq<Action>, s: State, stale: int) returns (acts': seq<Action>, s': State)
    requires WellFormed(c) && Run(c, acts) == Some(s) && NoWorkers(s) && s.phase == Sampling && !s.crashed
    requires s.collector.Idle? && s.buffer == Groups(s.version, stale, c.prompts)
    requires Serves(c, s.version, s.weight) && c.start <= s.version <= s.weight
    requires s.last < s.weight && s.weight !in s.generating && (s.weight == c.start || s.weight - 1 <= s.last)
    ensures acts <= acts' && Run(c, acts') == Some(s') && |s'.trained| > |s.trained|
  {
    hide Run, FreshRun, SampleStep;
    ServedIsPicked(c, s.version, s.last, s.generating, s.weight);
    GroupsLength(s.version, stale, c.prompts);
    RoomForTwo(c);
    var a1, s1 := Extend(c, acts, s, StartBatch);
    var a2, s2 := Extend(c, a1, s1, ReadLast);
    var a3, s3 := ServePick(c, a2, s2, s.weight);
    SampledBehind(c, s3, stale);
    acts', s' := Extend(c, a3, s3, Sample);
  }

  lemma RoomForTwo(c: Params)
    requires WellFormed(c)
    ensures 2 * c.prompts <= Capacity(c)
  {
    ScaleBound(c.maxAge, c.prompts);
  }

  lemma SampledBehind(c: Params, s: State, stale: int)
    requires WellFormed(c) && s.phase == Sampling && c.start <= s.version <= s.weight <= s.version + c.maxAge
    requires s.buffer == Groups(s.version, stale, c.prompts) + Groups(s.version, s.weight, c.prompts)
    ensures |SampleStep(c, s).trained| > |s.trained|
  {
    GroupsLength(s.version, stale, c.prompts);
    GroupsLength(s.version, s.weight, c.prompts);
    GroupsWanted(Groups(s.version, stale, c.prompts), s.version, s.weight, c.prompts, c.maxAge);
    forall i | 0 <= i < |s.buffer| ensures s.buffer[i].version == s.version {
      assert s.buffer[i] in s.buffer;
    }
    EnoughWanted(c, s);
  }

  // What a collector picks that does not pick the awaited step lies below it.
  lemma StalePick(c: Params, s: State)
    requires WellFormed(c) && Inv(c, s) && s.phase == Sampling && s.weight !in s.reserved
    requires WindowLow(s.version, c.start) <= s.weight
    requires s.collector.GotLast? && Pick(c, s).Some? && Pick(c, s) != Some(s.weight)
    ensures Pick(c, s).value < s.weight
  {
    AwaitedIsNext(c, s);
    NextTargetIsLeastFree(s.collector.version, c.start, c.maxAge, s.collector.seen, s.generating);
    if Pick(c, s).value > s.weight {
      assert Free(s.weight, s.collector.seen, s.generating);
    }
  }

  // Giving reservations back leaves the collector something to pick.
  lemma PickNotLost(c: Params, version: int, seen: int, generating: set<int>, fewer: set<int>)
    requires fewer <= generating && NextTarget(version, c.start, c.maxAge, seen, generating).Some?
    ensures NextTarget(version, c.start, c.maxAge, seen, fewer).Some?
  {
    NextTargetIsLeastFree(version, c.start, c.maxAge, seen, generating);
    NextTargetIsLeastFree(version, c.start, c.maxAge, seen, fewer);
    var t := NextTarget(version, c.start, c.maxAge, seen, generating).value;
    assert Free(t, seen, fewer);
  }

  // The stale batch is carried out first; the collector serves the awaited step in the next one.
  lemma TrainAfterStale(c: Params, acts: seq<Action>, s: State) returns (acts': seq<Action>, s': State)
    requires WellFormed(c) && Inv(c, s) && Run(c, acts) == Some(s) && s.phase == Sampling
    requires s.weight !in s.reserved && WindowLow(s.version, c.start) <= s.weight
    requires s.collector.GotLast? && Pick(c, s).Some? && Pick(c, s) != Some(s.weight)
    ensures acts <= acts' && Run(c, acts') == Some(s') && |s'.trained| > |s.trained|
  {
    AwaitedIsNext(c, s);
    var v, seen := s.collector.version, s.collector.seen;
    var a1, s1 := FinishWorkers(c, acts, s);
    PickNotGained(c, v, seen, s.generating, s1.generating, s.weight);
    PickNotLost(c, v, seen, s.generating, s1.generating);
    var a2, s2 := CatchUp(c, a1, s1);
    acts', s' := TrainPastStale(c, a2, s2);
    hide Run, FreshRun, Inv;
  }

  lemma TrainPastStale(c: Params, acts: seq<Action>, s: State) returns (acts': seq<Action>, s': State)
    requires WellFormed(c) && Inv(c, s) && Run(c, acts) == Some(s) && s.phase == Sampling && NoWorkers(s)
    requires s.weight !in s.reserved && Serves(c, s.version, s.weight)
    requires s.collector.GotLast? && Pick(c, s).Some? && Pick(c, s) != Some(s.weight)
    ensures acts <= acts' && Run(c, acts') == Some(s') && |s'.trained| > |s.trained|
  {
    AwaitedIsNext(c, s);
    StalePick(c, s);
    RoomForTwo(c);
    var t := Pick(c, s).value;
    var a1, s1 := ServePick(c, acts, s, t);
    assert [] + Groups(s.version, t, c.prompts) == Groups(s.version, t, c.prompts);
    acts', s' := TrainBehind(c, a1, s1, t);
    hide Run, FreshRun, Pick, Balanced, Ages, Log;
  }

  // ---------------------------------------------------------------- the exact condition

  // With the newest weights still serving the awaited step, the collector gets to it from anywhere.
  lemma TrainCurrent(c: Params, acts: seq<Action>, s: State) returns (acts': seq<Action>, s': State)
    requires WellFormed(c) && Inv(c, s) && Run(c, acts) == Some(s) && s.phase == Sampling
    requires s.weight !in s.reserved && WindowLow(s.version, c.start) <= s.weight
    ensures acts <= acts' && Run(c, acts') == Some(s') && |s'.trained| > |s.trained|
  {
    hide Run, FreshRun, Inv, Pick;
    match s.collector
    case Idle =>
      acts', s' := TrainFromIdle(c, acts, s);
    case Spawning(_, _, _) =>
      NextWithinBatch(c, s);
      var a1, s1 := FinishBatch(c, acts, s);
      acts', s' := TrainFromIdle(c, a1, s1);
    case GotLast(_, _) =>
      acts', s' := TrainFromLast(c, acts, s);
    case GotVersion(_) =>
      var a1, s1 := Proceed(c, acts, s, ReadLast);
      acts', s' := TrainFromLast(c, a1, s1);
  }

  lemma NextWithinBatch(c: Params, s: State)
    requires Inv(c, s) && s.collector.Spawning?
    ensures s.collector.next <= c.prompts
  {
  }

  lemma TrainFromLast(c: Params, acts: seq<Action>, s: State) returns (acts': seq<Action>, s': State)
    requires WellFormed(c) && Inv(c, s) && Run(c, acts) == Some(s) && s.phase == Sampling
    requires s.weight !in s.reserved && WindowLow(s.version, c.start) <= s.weight && s.collector.GotLast?
    ensures acts <= acts' && Run(c, acts') == Some(s') && |s'.trained| > |s.trained|
  {
    hide Run, FreshRun, Inv, Pick;
    if Pick(c, s) == None {
      var a1, s1 := Proceed(c, acts, s, Reserve);
      acts', s' := TrainFromIdle(c, a1, s1);
    } else if Pick(c, s) == Some(s.weight) {
      acts', s' := TrainPicked(c, acts, s);
    } else {
      acts', s' := TrainAfterStale(c, acts, s);
    }
  }

  lemma RefitLeavesRoom(c: Params, s: State)
    requires WellFormed(c) && Inv(c, s) && s.phase == Training
    ensures WindowLow(Step(c, s, Refit).version, c.start) <= Step(c, s, Refit).weight
    ensures Step(c, s, Refit).phase == Sampling && Step(c, s, Refit).trained == s.trained
  {
  }

  lemma TrainOnceMore(c: Params, acts: seq<Action>, s: State) returns (acts': seq<Action>, s': State)
    requires WellFormed(c) && Inv(c, s) && Run(c, acts) == Some(s) && !Doomed(c, s)
    ensures acts <= acts' && Run(c, acts') == Some(s') && |s'.trained| > |s.trained|
  {
    hide Run, FreshRun, Inv, Pick;
    var a1, s1 := acts, s;
    if s.phase == Training {
      RefitLeavesRoom(c, s);
      a1, s1 := Proceed(c, acts, s, Refit);
    }
    if s1.weight in s1.reserved {
      acts', s' := TrainReserved(c, a1, s1);
    } else if WindowLow(s1.version, c.start) <= s1.weight {
      acts', s' := TrainCurrent(c, a1, s1);
    } else if s1.collector.GotVersion? {
      acts', s' := TrainServed(c, a1, s1);
    } else {
      acts', s' := TrainPicked(c, a1, s1);
    }
  }

  ghost predicate TrainsAgain(c: Params, acts: seq<Action>, more: seq<Action>)
    requires Run(c, acts).Some?
  {
    Run(c, acts + more).Some? && |Run(c, acts + more).value.trained| > |Run(c, acts).value.trained|
  }

  // After a fresh run some continuation trains again if and only if the state is not doomed.
  lemma TrainsAgainIffNotDoomed(c: Params, acts: seq<Action>)
    requires WellFormed(c) && FreshRun(c, acts) && Run(c, acts).Some?
    ensures (exists more :: TrainsAgain(c, acts, more)) <==> !Doomed(c, Run(c, acts).value)
  {
    var s := Run(c, acts).value;
    if Doomed(c, s) {
      forall more ensures !TrainsAgain(c, acts, more) {
        if Run(c, acts + more).Some? {
          DoomedForever(c, acts, more);
        }
      }
    } else {
      RunInv(c, acts);
      var acts', s' := TrainOnceMore(c, acts, s);
      var more := acts'[|acts|..];
      assert acts + more == acts';
      assert TrainsAgain(c, acts, more);
    }
    hide Run, FreshRun, Inv, Doomed;
  }

  // ---------------------------------------------------------------- doomed states are reached

  // Version 1 arrives before step 1 is reserved, while the collector is idle.
  lemma SkippedStepIsReachable() returns (acts: seq<Action>)
    ensures FreshRun(SMALL, acts) && Run(SMALL, acts).Some?
    ensures Doomed(SMALL, Run(SMALL, acts).value)
    ensures Run(SMALL, acts).value.weight == 1
  {
    var a2, s2 := Start();
    var a3, s3 := TrainStep(a2, s2);
    var a4, s4 := Extend(SMALL, a3, s3, Deliver);
    var a5, s5 := Extend(SMALL, a4, s4, Deliver);
    acts := a5;
  }

  // Version 1 arrives while the collector has begun a batch that could serve step 1; its stale
  // read makes it choose step 0 again instead.
  lemma StaleBatchMissesStep() returns (acts: seq<Action>)
    ensures FreshRun(SMALL, acts) && Run(SMALL, acts).Some?
    ensures var s := Run(SMALL, acts).value;
            Doomed(SMALL, s) && s.collector.GotLast? && Serves(SMALL, s.collector.version, s.weight)
  {
    hide Run, FreshRun, Outcome, Pick;
    var a4, s4 := TrainedBehindTheRead();
    FirstPick(s4);
    var a5, s5 := Extend(SMALL, a4, s4, Refit);
    var a6, s6 := Extend(SMALL, a5, s5, Deliver);
    var a7, s7 := Extend(SMALL, a6, s6, Deliver);
    SamePick(s4, s7);
    acts := a7;
  }

  lemma SamePick(s: State, s': State)
    requires s.collector.GotLast? && s'.collector == s.collector && s'.generating == s.generating
    ensures Pick(SMALL, s') == Pick(SMALL, s)
  {
  }

  // Step 0 is trained on after the collector has read that nothing was buffered yet.
  lemma TrainedBehindTheRead() returns (acts: seq<Action>, s: State)
    ensures Run(SMALL, acts) == Some(s) && FreshRun(SMALL, acts)
    ensures s == State(0, Training, [0], 0, GotLast(0, -1), {}, [], [], [], 0, false, [0], s.trained)
  {
    hide Run, FreshRun, Outcome, Pick;
    var a1, s1 := StaleReadIsReachable();
    var a2, s2 := Extend(SMALL, a1, s1, Push(0));
    var a3, s3 := Extend(SMALL, a2, s2, Finish(0));
    OnlyGroupSampled(s3);
    acts, s := Extend(SMALL, a3, s3, Sample);
  }

  // ---------------------------------------------------------------- how many workers run

  // The semaphore has a permit for each prompt of max_trajectory_age_steps steps: a spawning collector
  // with prompts left can spawn exactly while fewer workers run. Without any such step there is one permit.
  lemma SpawnIffPermit(c: Params, s: State)
    requires s.collector.Spawning? && s.collector.next < c.prompts
    ensures WellFormed(c) ==> (Enabled(c, s, Spawn) <==> |s.running| + |s.closing| < c.prompts * c.maxAge)
    ensures c.maxAge == 0 ==> (Enabled(c, s, Spawn) <==> |s.running| + |s.closing| == 0)
  {
    if WellFormed(c) {
      MulMonoBoth(1, c.prompts, 1, c.maxAge);
    }
  }

  // A push is refused exactly when the buffer holds twice the prompts of max_trajectory_age_steps steps.
  lemma PushRefusedIffFull(c: Params, s: State, k: nat)
    requires k < |s.running|
    ensures Step(c, s, Push(k)) == s <==> |s.buffer| >= 2 * c.prompts * c.maxAge
  {
    assert Capacity(c) == 2 * c.prompts * c.maxAge;
    assert |RemoveAt(s.running, k)| < |s.running|;
  }

  // While nothing is pushed, the reservations of the first window are picked one after the other.
  lemma NextOfFirstWindow(c: Params, k: nat, generating: set<int>)
    requires c.start >= 0 && k <= c.maxAge && forall t :: t in generating <==> c.start <= t < c.start + k
    ensures NextTarget(c.start, c.start, c.maxAge, -1, generating) == Some(c.start + k)
  {
    NextTargetIsLeastFree(c.start, c.start, c.maxAge, -1, generating);
    assert Free(c.start + k, -1, generating);
  }

  // The collector has reserved the first k steps and spawned all their workers but the last
  // `prompts - next`; none has pushed.
  ghost predicate Filled(c: Params, s: State, k: nat, next: nat) {
    && k > 0 && s.phase == Sampling && s.version == c.start && s.last == -1
    && s.collector == Spawning(c.start, c.start + k - 1, next)
    && (forall t :: t in s.generating <==> c.start <= t < c.start + k)
    && |s.running| == Times(k - 1, c.prompts) + next && s.closing == []
  }

  lemma ReserveFirst(c: Params, acts: seq<Action>, s: State, k: nat) returns (acts': seq<Action>, s': State)
    requires WellFormed(c) && Run(c, acts) == Some(s) && FreshRun(c, acts) && k < c.maxAge
    requires s.phase == Sampling && s.version == c.start && s.last == -1 && s.collector.Idle? && s.closing == []
    requires (forall t :: t in s.generating <==> c.start <= t < c.start + k) && |s.running| == Times(k, c.prompts)
    ensures Run(c, acts') == Some(s') && FreshRun(c, acts') && Filled(c, s', k + 1, 0)
  {
    hide Run, FreshRun;
    NextOfFirstWindow(c, k, s.generating);
    var a1, s1 := Extend(c, acts, s, StartBatch);
    var a2, s2 := Extend(c, a1, s1, ReadLast);
    acts', s' := Extend(c, a2, s2, Reserve);
  }

  lemma RoomForWorker(c: Params, k: nat, next: nat)
    requires 0 < k <= c.maxAge && next < c.prompts
    ensures Times(k - 1, c.prompts) + next < c.prompts * c.maxAge
  {
    TimesFits(c.prompts, c.maxAge, k - 1);
    TimesIsProduct(c.maxAge, c.prompts);
  }

  lemma {:induction false} FillWorkers(c: Params, k: nat, next: nat) returns (acts: seq<Action>, s: State)
    requires WellFormed(c) && 0 < k <= c.maxAge && next <= c.prompts
    ensures Run(c, acts) == Some(s) && FreshRun(c, acts) && Filled(c, s, k, next)
    decreases k, next
  {
    hide Run, FreshRun;
    if next > 0 {
      var a1, s1 := FillWorkers(c, k, next - 1);
      RoomForWorker(c, k, next - 1);
      SpawnIffPermit(c, s1);
      acts, s := Extend(c, a1, s1, Spawn);
    } else if k > 1 {
      var a1, s1 := FillWorkers(c, k - 1, c.prompts);
      var a2, s2 := Extend(c, a1, s1, EndBatch);
      acts, s := ReserveFirst(c, a2, s2, k - 1);
    } else {
      StartOfRun(c);
      acts, s := ReserveFirst(c, [], Init(c), 0);
    }
  }

  lemma StartOfRun(c: Params)
    ensures Run(c, []) == Some(Init(c)) && FreshRun(c, [])
  {
  }

  lemma WholeSteps(c: Params, n: nat) returns (k: nat, next: nat)
    requires WellFormed(c) && 0 < n <= c.prompts * c.maxAge
    ensures 0 < k <= c.maxAge && next <= c.prompts && n == Times(k - 1, c.prompts) + next
  {
    var q := (n - 1) / c.prompts;
    QuotientBelow(n - 1, c.maxAge, c.prompts);
    assert n - 1 == q * c.prompts + (n - 1) % c.prompts;
    TimesIsProduct(q, c.prompts);
    k, next := q + 1, (n - 1) % c.prompts + 1;
  }

  // The bound on the workers is attained, and so is every number below it.
  lemma EveryNumberOfWorkers(c: Params, n: nat) returns (acts: seq<Action>)
    requires WellFormed(c) && n <= c.prompts * c.maxAge
    ensures FreshRun(c, acts) && Run(c, acts).Some?
    ensures |Run(c, acts).value.running| + |Run(c, acts).value.closing| == n
  {
    hide Run, FreshRun;
    if n == 0 {
      StartOfRun(c);
      acts := [];
    } else {
      var k, next := WholeSteps(c, n);
      var s;
      acts, s := FillWorkers(c, k, next);
    }
  }

  // ---------------------------------------------------------------- when a reservation ends

  // The worker of the first prompt gives the reservation back once it has pushed, while it still runs.
  lemma FirstPushReleases(c: Params, acts: seq<Action>, s: State, k: nat) returns (acts': seq<Action>, s': State)
    requires Run(c, acts) == Some(s) && FreshRun(c, acts)
    requires k < |s.closing| && s.closing[k].item == 0
    ensures Run(c, acts') == Some(s') && FreshRun(c, acts')
    ensures s' == s.(generating := s.generating - {s.closing[k].target})
  {
    hide Run, FreshRun;
    acts', s' := Extend(c, acts, s, ReleaseFirst(k));
  }

  // Nothing else ends a reservation but the end of a worker for that step.
  lemma ReleasedByWorker(c: Params, s: State, a: Action, t: int)
    requires Enabled(c, s, a) && t in s.generating
    ensures t !in Step(c, s, a).generating <==>
            exists k: nat :: k < |s.closing| && s.closing[k].target == t
                             && (a == Finish(k) || (a == ReleaseFirst(k) && s.closing[k].item == 0))
  {
    hide Outcome;
    match a
    case Finish(k) => assert s.closing[k] == s.closing[k];
    case ReleaseFirst(k) => assert s.closing[k] == s.closing[k];
    case _ =>
  }
}
