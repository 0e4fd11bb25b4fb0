/** The trajectory collector of asynchronous GRPO: which training step it generates for next. */
module Collectors {
  import opened Wrappers

  // The training steps that generation with weights `version` may serve.
  function TargetWeights(version: int, initial: int, maxAge: nat): seq<int> {
    if version == initial then seq(maxAge + 1, i => initial + i)
    else seq(maxAge, i => version + 1 + i)
  }

  // The lowest step of the window.
  function WindowLow(version: int, initial: int): int {
    if version == initial then initial else version + 1
  }

  predicate Free(target: int, lastGenerated: int, generating: set<int>) {
    target > lastGenerated && target !in generating
  }

  function FirstFree(targets: seq<int>, lastGenerated: int, generating: set<int>): Option<int> {
    if |targets| == 0 then None
    else if Free(targets[0], lastGenerated, generating) then Some(targets[0])
    else FirstFree(targets[1..], lastGenerated, generating)
  }

  function NextTarget(version: int, initial: int, maxAge: nat, lastGenerated: int, generating: set<int>): Option<int> {
    FirstFree(TargetWeights(version, initial, maxAge), lastGenerated, generating)
  }

  lemma {:induction false} FirstFreeMeaning(targets: seq<int>, lastGenerated: int, generating: set<int>)
    ensures match FirstFree(targets, lastGenerated, generating)
            case None => forall i :: 0 <= i < |targets| ==> !Free(targets[i], lastGenerated, generating)
            case Some(t) =>
              && Free(t, lastGenerated, generating)
              && exists k :: 0 <= k < |targets| && targets[k] == t
                             && forall i :: 0 <= i < k ==> !Free(targets[i], lastGenerated, generating)
  {
    if |targets| > 0 && !Free(targets[0], lastGenerated, generating) {
      FirstFreeMeaning(targets[1..], lastGenerated, generating);
      match FirstFree(targets, lastGenerated, generating)
      case None =>
        assert forall i :: 0 < i < |targets| ==> targets[i] == targets[1..][i - 1];
      case Some(t) =>
        var k :| 0 <= k < |targets[1..]| && targets[1..][k] == t
                 && forall i :: 0 <= i < k ==> !Free(targets[1..][i], lastGenerated, generating);
        assert forall i :: 0 < i < k + 1 ==> targets[i] == targets[1..][i - 1];
        assert targets[k + 1] == t;
    }
  }

  // The choice is the least free step between the bottom of the window and version + maxAge.
  lemma NextTargetIsLeastFree(version: int, initial: int, maxAge: nat, lastGenerated: int, generating: set<int>)
    ensures match NextTarget(version, initial, maxAge, lastGenerated, generating)
            case None => forall t :: WindowLow(version, initial) <= t <= version + maxAge ==> !Free(t, lastGenerated, generating)
            case Some(t) =>
              && WindowLow(version, initial) <= t <= version + maxAge
              && Free(t, lastGenerated, generating)
              && forall u :: WindowLow(version, initial) <= u < t ==> !Free(u, lastGenerated, generating)
  {
    var targets := TargetWeights(version, initial, maxAge);
    var low := WindowLow(version, initial);
    FirstFreeMeaning(targets, lastGenerated, generating);
    assert forall i :: 0 <= i < |targets| ==> targets[i] == low + i;
    match NextTarget(version, initial, maxAge, lastGenerated, generating)
    case None =>
      forall t | low <= t <= version + maxAge ensures !Free(t, lastGenerated, generating) {
        assert targets[t - low] == t;
      }
    case Some(t) =>
      var k :| 0 <= k < |targets| && targets[k] == t
               && forall i :: 0 <= i < k ==> !Free(targets[i], lastGenerated, generating);
      forall u | low <= u < t ensures !Free(u, lastGenerated, generating) {
        assert targets[u - low] == u;
      }
  }

  class AsyncTrajectoryCollector {
    const initialWeightVersion: int
    const maxTrajectoryAge: nat
    var currentWeightVersion: int
    var generatingTargets: set<int>

    constructor (startStep: int, maxTrajectoryAge: nat)
      ensures initialWeightVersion == startStep && currentWeightVersion == startStep
      ensures this.maxTrajectoryAge == maxTrajectoryAge && generatingTargets == {}
    {
      initialWeightVersion, currentWeightVersion := startStep, startStep;
      this.maxTrajectoryAge := maxTrajectoryAge;
      generatingTargets := {};
    }

    // lastGenerated is what the replay buffer answered before the lock was taken.
    method GetNextTargetForGeneration(version: int, lastGenerated: int) returns (target: Option<int>)
      modifies this`generatingTargets
      ensures target == NextTarget(version, initialWeightVersion, maxTrajectoryAge, lastGenerated, old(generatingTargets))
      ensures generatingTargets == old(generatingTargets) + if target.Some? then {target.value} else {}
    {
      var targets := TargetWeights(version, initialWeightVersion, maxTrajectoryAge);
      for i := 0 to |targets|
        invariant generatingTargets == old(generatingTargets)
        invariant FirstFree(targets[i..], lastGenerated, generatingTargets)
               == FirstFree(targets, lastGenerated, generatingTargets)
      {
        if targets[i] > lastGenerated && targets[i] !in generatingTargets {
          generatingTargets := generatingTargets + {targets[i]};
          return Some(targets[i]);
        }
        assert targets[i..][1..] == targets[i + 1..];
      }
      return None;
    }

    // The pause test of the collection loop: no step of the current window is free.
    method ShouldPauseForGenerationLimits(lastGenerated: int) returns (pause: bool)
      ensures pause <==> forall t :: WindowLow(currentWeightVersion, initialWeightVersion) <= t
                                     <= currentWeightVersion + maxTrajectoryAge
                                     ==> !Free(t, lastGenerated, generatingTargets)
    {
      var targets := TargetWeights(currentWeightVersion, initialWeightVersion, maxTrajectoryAge);
      NextTargetIsLeastFree(currentWeightVersion, initialWeightVersion, maxTrajectoryAge, lastGenerated, generatingTargets);
      for i := 0 to |targets|
        invariant FirstFree(targets[i..], lastGenerated, generatingTargets)
               == FirstFree(targets, lastGenerated, generatingTargets)
      {
        if targets[i] > lastGenerated && targets[i] !in generatingTargets {
          return false;
        }
        assert targets[i..][1..] == targets[i + 1..];
      }
      return true;
    }

    method SetWeightVersion(version: int)
      modifies this`currentWeightVersion
      ensures currentWeightVersion == version
    {
      currentWeightVersion := version;
    }

    // A finished worker, or the one with the first prompt, gives the reservation back.
    method ReleaseReservation(target: int)
      modifies this`generatingTargets
      ensures generatingTargets == old(generatingTargets) - {target}
    {
      if target in generatingTargets {
        generatingTargets := generatingTargets - {target};
      }
    }
  }
}
