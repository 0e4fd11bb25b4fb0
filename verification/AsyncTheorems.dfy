/** What runs of asynchronous GRPO keep. */
module AsyncTheorems {
  import opened Wrappers
  import opened Arith
  import Seqs
  import opened ReplayBuffers
  import opened Collectors
  import opened AsyncProtocol

  // Safety of fresh runs, and the two schedules on which things go wrong.

  // ---------------------------------------------------------------- safety of fresh runs

  // Whenever the trainer stands at version W, each buffered group is meant for a step from W to
  // W + maxAge and was generated at most maxAge versions before that step; sample never raises.
  lemma AgeSafety(c: Params, acts: seq<Action>)
    requires WellFormed(c) && FreshRun(c, acts) && Run(c, acts).Some?
    ensures var s := Run(c, acts).value;
            && !s.crashed
            && (forall e :: e in s.buffer ==>
                  && s.weight <= e.target <= s.weight + c.maxAge
                  && e.target - c.maxAge <= e.version <= e.target)
            && (s.phase == Sampling ==> !Outcome(s.buffer, c.prompts, s.weight, c.maxAge).Raised?)
  {
    RunInv(c, acts);
    var s := Run(c, acts).value;
    LiveTargets(c, s);
    forall e | e in s.buffer ensures e.target - c.maxAge <= e.version <= e.target {
      assert LiveGroup(c, s, e);
    }
    if s.phase == Sampling {
      SampleDoesNotRaise(c, s);
    }
  }

  // The buffer stays within (maxAge + 1) steps' worth of groups, a push always finds room, and
  // the semaphore admits at most prompts * maxAge workers.
  lemma BufferSafety(c: Params, acts: seq<Action>)
    requires WellFormed(c) && FreshRun(c, acts) && Run(c, acts).Some?
    ensures var s := Run(c, acts).value;
            && |s.buffer| <= (c.maxAge + 1) * c.prompts
            && (|s.running| > 0 ==> |s.buffer| < Capacity(c))
            && |s.running| + |s.closing| <= c.prompts * c.maxAge
  {
    RunInv(c, acts);
    var s := Run(c, acts).value;
    BufferBound(c, s);
    if |s.running| > 0 {
      PushFindsRoom(c, s);
    }
    MulMonoBoth(1, c.prompts, 1, c.maxAge);
  }

  // Steps are reserved in strictly increasing order; the i-th trained batch holds each of the
  // prompts of step start + i exactly once; a trained step has nothing left anywhere; a reserved
  // step that is still to come has each prompt exactly once in buffer, workers and spawn loop.
  ghost predicate OnceEach(c: Params, s: State) {
    && Seqs.Increasing(s.reserved)
    && |s.trained| == s.weight - c.start + (if s.phase == Training then 1 else 0)
    && (forall i :: 0 <= i < |s.trained| ==> CompleteBatch(c, s.trained[i], c.start + i))
    && (forall t, p :: t < c.start + |s.trained| && p >= -1 ==> Total(c, s, t, p) == 0)
    && (forall t, p :: t >= c.start + |s.trained| && t in s.reserved && 0 <= p < c.prompts ==> Total(c, s, t, p) == 1)
    && (forall t, p :: t !in s.reserved && p >= -1 ==> Total(c, s, t, p) == 0)
  }

  lemma ExactlyOnce(c: Params, acts: seq<Action>)
    requires WellFormed(c) && FreshRun(c, acts) && Run(c, acts).Some?
    ensures OnceEach(c, Run(c, acts).value)
  {
    RunInv(c, acts);
    InvOnceEach(c, Run(c, acts).value);
    hide Run, FreshRun, Inv, OnceEach;
  }

  lemma InvOnceEach(c: Params, s: State)
    requires WellFormed(c) && Inv(c, s)
    ensures OnceEach(c, s)
  {
    hide Ages, Total, CompleteBatch;
  }

  // A reservation whose buffer answer has not changed since it was read is fresh, so a run in
  // which nothing is pushed between the two steps is a fresh run.
  lemma UnchangedAnswerIsFresh(c: Params, s: State, a: Action)
    requires Enabled(c, s, a)
    requires a.Reserve? ==> s.collector.seen == s.last
    ensures FreshStep(c, s, a)
  {
    if a.Reserve? {
      NextTargetIsLeastFree(s.collector.version, c.start, c.maxAge, s.collector.seen, s.generating);
    }
  }

  // The exact condition: at the end of a fresh run the picked step was reserved before if and
  // only if it is not above what the buffer would answer now.
  lemma StalePickIffReservedBefore(c: Params, acts: seq<Action>)
    requires WellFormed(c) && FreshRun(c, acts) && Run(c, acts).Some?
    requires Run(c, acts).value.collector.GotLast? && Pick(c, Run(c, acts).value).Some?
    ensures var s := Run(c, acts).value;
            Pick(c, s).value in s.reserved <==> Pick(c, s).value <= s.last
  {
    RunInv(c, acts);
    var s := Run(c, acts).value;
    var t := Pick(c, s).value;
    if t > s.last {
      PickIsNew(c, s);
    } else {
      NextTargetIsLeastFree(s.collector.version, c.start, c.maxAge, s.collector.seen, s.generating);
      assert s.last in s.reserved;
      assert t == s.last || t in s.reserved;
    }
  }

  lemma RepeatedReservation(xs: seq<int>, t: int)
    requires t in xs
    ensures !Seqs.Distinct(xs + [t])
  {
    var i :| 0 <= i < |xs| && xs[i] == t;
    assert (xs + [t])[i] == (xs + [t])[|xs|];
  }

  lemma DistinctBefore(s: State, c: Params, a: Action)
    requires Enabled(c, s, a) && Seqs.Distinct(Step(c, s, a).reserved)
    ensures Seqs.Distinct(s.reserved)
  {
    assert s.reserved == Step(c, s, a).reserved[..|s.reserved|];
  }

  lemma {:induction false} DistinctRunIsFresh(c: Params, acts: seq<Action>)
    requires WellFormed(c) && Run(c, acts).Some? && Seqs.Distinct(Run(c, acts).value.reserved)
    ensures FreshRun(c, acts)
  {
    if |acts| > 0 {
      var before, a := acts[..|acts| - 1], acts[|acts| - 1];
      var s := Run(c, before).value;
      DistinctBefore(s, c, a);
      DistinctRunIsFresh(c, before);
      if !FreshStep(c, s, a) {
        StalePickIffReservedBefore(c, before);
        RepeatedReservation(s.reserved, Pick(c, s).value);
      }
    }
  }

  // A run is fresh if and only if it reserves no step twice, and then it reserves them in order.
  lemma FreshIffNothingReservedTwice(c: Params, acts: seq<Action>)
    requires WellFormed(c) && Run(c, acts).Some?
    ensures FreshRun(c, acts) <==> Seqs.Distinct(Run(c, acts).value.reserved)
    ensures FreshRun(c, acts) <==> Seqs.Increasing(Run(c, acts).value.reserved)
  {
    var reserved := Run(c, acts).value.reserved;
    if FreshRun(c, acts) {
      RunInv(c, acts);
    }
    if Seqs.Increasing(reserved) {
      assert Seqs.Distinct(reserved);
    }
    if Seqs.Distinct(reserved) {
      DistinctRunIsFresh(c, acts);
    }
  }

  // ---------------------------------------------------------------- concrete schedules

  lemma {:induction false} NothingWanted(es: seq<Group>, current: int, maxAge: int)
    requires forall e :: e in es ==> e.target != current
    ensures CountWanted(es, current, maxAge) == 0
  {
    if |es| > 0 {
      assert es[|es| - 1] in es;
      NothingWanted(es[..|es| - 1], current, maxAge);
    }
  }

  // A run of one prompt per step and age one, starting at step 0.
  const SMALL := Params(1, 1, 0)

  lemma Extend(c: Params, acts: seq<Action>, s: State, a: Action) returns (acts': seq<Action>, s': State)
    requires Run(c, acts) == Some(s) && Enabled(c, s, a)
    ensures acts' == acts + [a] && s' == Step(c, s, a)
    ensures Run(c, acts') == Some(s')
    ensures FreshRun(c, acts) && FreshStep(c, s, a) ==> FreshRun(c, acts')
  {
    acts', s' := acts + [a], Step(c, s, a);
    assert acts'[..|acts'| - 1] == acts;
  }

  // One full batch for the next step: reserved from `version`, spawned, pushed and finished.
  lemma OneTarget(acts: seq<Action>, s: State, t: int) returns (acts': seq<Action>, s': State)
    requires Run(SMALL, acts) == Some(s)
    requires s.collector == GotLast(s.version, s.last) && Pick(SMALL, s) == Some(t) && t > s.last
    requires s.running == [] && s.closing == [] && |s.buffer| < 2 && s.generating == {}
    ensures Run(SMALL, acts') == Some(s')
    ensures s' == s.(collector := Idle, buffer := s.buffer + [Entry(s.version, t, 0)], last := t, reserved := s.reserved + [t])
    ensures FreshRun(SMALL, acts) ==> FreshRun(SMALL, acts')
  {
    hide Run, FreshRun, Pick;
    var a1, s1 := Extend(SMALL, acts, s, Reserve);
    var a2, s2 := Extend(SMALL, a1, s1, Spawn);
    var a3, s3 := Extend(SMALL, a2, s2, EndBatch);
    var a4, s4 := Extend(SMALL, a3, s3, Push(0));
    acts', s' := Extend(SMALL, a4, s4, Finish(0));
    assert s'.running == [] && s'.closing == [] && s'.generating == {};
  }

  // The buffer holds `others`, none of them wanted and none too old, and then the wanted group.
  lemma SampleLast(es: seq<Group>, e: Group, current: int)
    requires Wanted(e, current, 1) && CountWanted(es, current, 1) == 0
    requires forall x :: x in es ==> x.version >= MinValid(current, 1)
    ensures Outcome(es + [e], 1, current, 1).Sampled?
    ensures DropWanted(es + [e], current, 1, 1) == es
  {
    hide HasTooOld, CountWanted, CountValid, TakeWanted, AverageAge, Items, DropWanted;
    NewestCounts(es, e, current);
    NewestDropped(es, e, current);
  }

  lemma NewestCounts(es: seq<Group>, e: Group, current: int)
    requires Wanted(e, current, 1)
    requires forall x :: x in es ==> x.version >= MinValid(current, 1)
    ensures CountWanted(es + [e], current, 1) >= 1 && CountValid(es + [e], current, 1) >= 1
    ensures !HasTooOld(es + [e], current, 1)
  {
    var all := es + [e];
    assert all[..|es|] == es;
    forall i | 0 <= i < |all| ensures all[i].version >= MinValid(current, 1) {
      if i < |es| { assert all[i] == es[i] && es[i] in es; }
    }
  }

  lemma NewestDropped(es: seq<Group>, e: Group, current: int)
    requires Wanted(e, current, 1) && CountWanted(es, current, 1) == 0
    ensures DropWanted(es + [e], current, 1, 1) == es
  {
    assert (es + [e])[..|es|] == es;
    NothingDropped(es, current, 1, 1);
  }

  lemma {:induction false} NothingDropped(es: seq<Group>, current: int, maxAge: int, n: nat)
    requires CountWanted(es, current, maxAge) == 0
    ensures DropWanted(es, current, maxAge, n) == es
  {
    if |es| > 0 {
      NothingDropped(es[..|es| - 1], current, maxAge, n);
    }
  }

  // Training on step t: the collector starts a batch, reserves and delivers t, the trainer
  // samples it behind the `others` and refits.
  lemma TrainStep(acts: seq<Action>, s: State) returns (acts': seq<Action>, s': State)
    requires Run(SMALL, acts) == Some(s)
    requires s.collector == GotLast(s.version, s.last) && Pick(SMALL, s) == Some(s.weight) && s.weight > s.last
    requires s.running == [] && s.closing == [] && |s.buffer| < 2 && s.generating == {}
    requires s.phase == Sampling && !s.crashed && InWindow(s.version, s.weight, 1)
    requires CountWanted(s.buffer, s.weight, 1) == 0
    requires forall x :: x in s.buffer ==> x.version >= MinValid(s.weight, 1)
    ensures Run(SMALL, acts') == Some(s')
    ensures FreshRun(SMALL, acts) ==> FreshRun(SMALL, acts')
    ensures s' == s.(collector := Idle, last := s.weight, reserved := s.reserved + [s.weight],
                     weight := s.weight + 1, mailbox := s.mailbox + [s.weight + 1], trained := s'.trained)
  {
    var a1, s1 := OneTarget(acts, s, s.weight);
    SampleLast(s.buffer, Entry(s.version, s.weight, 0), s.weight);
    var a2, s2 := Extend(SMALL, a1, s1, Sample);
    acts', s' := Extend(SMALL, a2, s2, Refit);
  }

  lemma FirstPick(s: State)
    requires s.collector.GotLast? && s.collector.version == 0 && 0 !in s.generating
    requires -1 <= s.collector.seen <= 0 && (s.collector.seen == 0 ==> 1 !in s.generating)
    ensures Pick(SMALL, s) == Some(s.collector.seen + 1)
  {
    NextTargetIsLeastFree(0, 0, 1, s.collector.seen, s.generating);
    assert Free(s.collector.seen + 1, s.collector.seen, s.generating);
  }

  // The first worker of step 0 is generating and the collector has read that nothing was
  // buffered yet, on its way to a second reservation.
  lemma StaleReadIsReachable() returns (acts: seq<Action>, s: State)
    ensures Run(SMALL, acts) == Some(s) && FreshRun(SMALL, acts)
    ensures s == State(0, Sampling, [0], 0, GotLast(0, -1), {0}, [Entry(0, 0, 0)], [], [], -1, false, [0], [])
  {
    hide Run, FreshRun, Pick, Outcome;
    var a4, s4 := FirstSpawn();
    var a5, s5 := Extend(SMALL, a4, s4, EndBatch);
    var a6, s6 := Extend(SMALL, a5, s5, StartBatch);
    acts, s := Extend(SMALL, a6, s6, ReadLast);
  }

  lemma FirstSpawn() returns (acts: seq<Action>, s: State)
    ensures Run(SMALL, acts) == Some(s) && FreshRun(SMALL, acts)
    ensures s == State(0, Sampling, [0], 0, Spawning(0, 0, 1), {0}, [Entry(0, 0, 0)], [], [], -1, false, [0], [])
  {
    hide Run, FreshRun, Pick, Outcome;
    var a1, s1 := Start();
    var a3, s3 := Extend(SMALL, a1, s1, Reserve);
    acts, s := Extend(SMALL, a3, s3, Spawn);
  }

  // The start of every run: the collector has read that nothing was buffered yet.
  lemma Start() returns (acts: seq<Action>, s: State)
    ensures Run(SMALL, acts) == Some(s) && FreshRun(SMALL, acts)
    ensures s == Init(SMALL).(collector := GotLast(0, -1))
    ensures Pick(SMALL, s) == Some(0)
  {
    var a1, s1 := Extend(SMALL, [], Init(SMALL), StartBatch);
    acts, s := Extend(SMALL, a1, s1, ReadLast);
    FirstPick(s);
  }

  // The two-step reservation can reserve step 0 twice: the first worker pushes and ends between
  // the read of the buffer's answer and the check.
  lemma DoubleReservationIsReachable() returns (acts: seq<Action>, s: State)
    ensures Run(SMALL, acts) == Some(s) && !FreshRun(SMALL, acts)
    ensures s == State(0, Sampling, [0], 0, Spawning(0, 0, 0), {0}, [], [], [Entry(0, 0, 0)], 0, false, [0, 0], [])
  {
    var a7, s7 := StaleReadIsReachable();
    var a8, s8 := Extend(SMALL, a7, s7, Push(0));
    var a9, s9 := Extend(SMALL, a8, s8, Finish(0));
    FirstPick(s9);
    acts, s := Extend(SMALL, a9, s9, Reserve);
    assert acts[..|acts| - 1] == a9;
    hide Run, Pick;
  }

  lemma OnlyGroupSampled(s: State)
    requires s.buffer == [Entry(0, 0, 0)] && s.weight == 0
    ensures SampleStep(SMALL, s) == s.(phase := Training, buffer := [], trained := SampleStep(SMALL, s).trained)
  {
    SampleLast([], Entry(0, 0, 0), 0);
    assert [] + [Entry(0, 0, 0)] == s.buffer;
    hide Outcome, DropWanted, TakeWanted;
  }

  lemma FirstBatchTrained() returns (acts: seq<Action>, s: State)
    ensures Run(SMALL, acts) == Some(s)
    ensures s == State(0, Training, [0], 0, Idle, {0}, [Entry(0, 0, 0)], [], [], 0, false, [0, 0], s.trained)
  {
    hide Run, FreshRun, Pick, Outcome, SampleStep;
    var a1, s1 := DoubleReservationIsReachable();
    var a2, s2 := Extend(SMALL, a1, s1, Spawn);
    var a3, s3 := Extend(SMALL, a2, s2, EndBatch);
    OnlyGroupSampled(s3);
    acts, s := Extend(SMALL, a3, s3, Sample);
  }

  // Step 0 is trained on one of its two groups and the other one is pushed afterwards.
  lemma LeftOverIsReachable() returns (acts: seq<Action>, s: State)
    ensures Run(SMALL, acts) == Some(s)
    ensures s == State(1, Sampling, [0, 1], 0, Idle, {}, [], [], [Entry(0, 0, 0)], 0, false, [0, 0], s.trained)
  {
    var a4, s4 := FirstBatchTrained();
    hide Run, FreshRun, Pick, Outcome;
    var a5, s5 := Extend(SMALL, a4, s4, Push(0));
    var a6, s6 := Extend(SMALL, a5, s5, Finish(0));
    acts, s := Extend(SMALL, a6, s6, Refit);
  }

  // After a double reservation the left-over group outlives its age window and sample raises.
  lemma DoubleReservationCrashes() returns (acts: seq<Action>)
    ensures Run(SMALL, acts).Some? && Run(SMALL, acts).value.crashed
  {
    var a7, s7 := LeftOverIsReachable();
    hide Run, FreshRun;
    var a8, s8 := Extend(SMALL, a7, s7, StartBatch);
    var a9, s9 := Extend(SMALL, a8, s8, ReadLast);
    FirstPick(s9);
    NothingWanted(s9.buffer, 1, 1);
    var a10, s10 := TrainStep(a9, s9);
    assert s10.buffer[0].version < MinValid(2, 1);
    var a11, s11 := Extend(SMALL, a10, s10, Sample);
    acts := a11;
  }
}
