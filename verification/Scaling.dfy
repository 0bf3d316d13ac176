/** Streak counters and cooldown of the scaling evaluator (src/daemon/scaling.rs). */
module Scaling {
  import opened Prelude

  const SCALING_STREAK_THRESHOLD: nat := 3

  /** Policies are stored only with the scale-in threshold below the scale-out one
      (src/state/scaling.rs). */
  datatype Policy = Policy(
    id: string, enabled: bool, scaleOut: real, scaleIn: real, cooldownSeconds: nat, lastActionMs: Option<nat>)
  {
    predicate Normalized() {
      scaleIn < scaleOut
    }
  }

  datatype Action = ScaleOut | ScaleIn

  datatype Streak = Streak(above: nat, below: nat)

  function Bumped(s: Streak, p: Policy, value: real): Streak {
    var above := if value > p.scaleOut then s.above + 1 else 0;
    var below := if value > p.scaleOut then 0 else s.below;
    if value < p.scaleIn then Streak(0, below + 1) else Streak(above, 0)
  }

  predicate CooldownElapsed(p: Policy, now: nat) {
    p.lastActionMs.Some? ==> Max(0, now - p.lastActionMs.value) >= p.cooldownSeconds * 1000
  }

  function Attempt(s: Streak, p: Policy, now: nat): Option<Action> {
    if !CooldownElapsed(p, now) then None
    else if s.above >= SCALING_STREAK_THRESHOLD then Some(ScaleOut)
    else if s.below >= SCALING_STREAK_THRESHOLD then Some(ScaleIn)
    else None
  }

  /** `value` is absent when the policy is skipped: a remote target on a node that is
      not the leader. */
  function Evaluated(s: Streak, p: Policy, value: Option<real>, now: nat): (Streak, Option<Action>) {
    if !p.enabled || value.None? then (s, None)
    else
      var bumped := Bumped(s, p, value.value);
      var attempt := Attempt(bumped, p, now);
      (if attempt.Some? then Streak(0, 0) else bumped, attempt)
  }

  function CountOf(m: map<string, nat>, id: string): nat {
    if id in m then m[id] else 0
  }

  class ScalingEvaluator {
    var aboveStreaks: map<string, nat>
    var belowStreaks: map<string, nat>

    function StreakOf(id: string): Streak
      reads this
    {
      Streak(CountOf(aboveStreaks, id), CountOf(belowStreaks, id))
    }

    constructor ()
      ensures forall id :: StreakOf(id) == Streak(0, 0)
    {
      aboveStreaks, belowStreaks := map[], map[];
    }

    method EvaluatePolicy(p: Policy, value: Option<real>, now: nat) returns (attempt: Option<Action>)
      modifies this
      ensures (StreakOf(p.id), attempt) == Evaluated(old(StreakOf(p.id)), p, value, now)
      ensures forall id :: id != p.id ==> StreakOf(id) == old(StreakOf(id))
    {
      attempt := None;
      if !p.enabled || value.None? {
        return;
      }
      var v := value.value;
      if v > p.scaleOut {
        aboveStreaks := aboveStreaks[p.id := CountOf(aboveStreaks, p.id) + 1];
        belowStreaks := belowStreaks - {p.id};
      } else {
        aboveStreaks := aboveStreaks - {p.id};
      }
      if v < p.scaleIn {
        belowStreaks := belowStreaks[p.id := CountOf(belowStreaks, p.id) + 1];
        aboveStreaks := aboveStreaks - {p.id};
      } else {
        belowStreaks := belowStreaks - {p.id};
      }
      if !CooldownElapsed(p, now) {
        return;
      }
      var above, below := CountOf(aboveStreaks, p.id), CountOf(belowStreaks, p.id);
      if above >= SCALING_STREAK_THRESHOLD {
        aboveStreaks, belowStreaks := aboveStreaks - {p.id}, belowStreaks - {p.id};
        attempt := Some(ScaleOut);
      } else if below >= SCALING_STREAK_THRESHOLD {
        aboveStreaks, belowStreaks := aboveStreaks - {p.id}, belowStreaks - {p.id};
        attempt := Some(ScaleIn);
      }
    }

    /** One pass over the stored policies, which have distinct ids. */
    method EvaluateScalingPolicies(policies: seq<Policy>, values: seq<Option<real>>, now: nat)
      returns (attempts: seq<Option<Action>>)
      requires |values| == |policies|
      requires forall i, j :: 0 <= i < j < |policies| ==> policies[i].id != policies[j].id
      modifies this
      ensures |attempts| == |policies|
      ensures forall i :: 0 <= i < |policies| ==>
                (StreakOf(policies[i].id), attempts[i])
                == Evaluated(old(StreakOf(policies[i].id)), policies[i], values[i], now)
    {
      attempts := [];
      for k := 0 to |policies|
        invariant |attempts| == k
        invariant forall i :: 0 <= i < k ==>
                    (StreakOf(policies[i].id), attempts[i])
                    == Evaluated(old(StreakOf(policies[i].id)), policies[i], values[i], now)
        invariant forall i :: k <= i < |policies| ==> StreakOf(policies[i].id) == old(StreakOf(policies[i].id))
      {
        var attempt := EvaluatePolicy(policies[k], values[k], now);
        attempts := attempts + [attempt];
      }
    }
  }

  // ---- One policy over many evaluations --------------------------------------------------

  /** One evaluation. The policy may have been edited since the last one, but not its
      `lastActionMs`, which only recording changes; `fires` is whether an attempt finds
      the task in the state that makes it act. */
  datatype Look = Look(policy: Policy, value: Option<real>, now: nat, fires: bool)

  /** `acted` has the times at which actions were recorded. */
  datatype History = History(streak: Streak, acted: seq<nat>)

  ghost function LastActed(h: History): Option<nat> {
    if h.acted == [] then None else Some(h.acted[|h.acted| - 1])
  }

  predicate Counts(l: Look) {
    l.policy.enabled && l.value.Some?
  }

  function AttemptOf(s: Streak, l: Look): Option<Action> {
    Evaluated(s, l.policy, l.value, l.now).1
  }

  function Next(h: History, l: Look): History {
    var (streak, attempt) := Evaluated(h.streak, l.policy, l.value, l.now);
    History(streak, if attempt.Some? && l.fires then h.acted + [l.now] else h.acted)
  }

  function After(looks: seq<Look>): History {
    if looks == [] then History(Streak(0, 0), [])
    else Next(After(looks[..|looks| - 1]), looks[|looks| - 1])
  }

  /** Each evaluation saw the last action recorded before it, and a normalised policy. */
  ghost predicate Consistent(looks: seq<Look>) {
    forall i :: 0 <= i < |looks| ==>
      looks[i].policy.Normalized() && looks[i].policy.lastActionMs == LastActed(After(looks[..i]))
  }

  predicate Beyond(l: Look, out: bool)
    requires Counts(l)
  {
    if out then l.value.value > l.policy.scaleOut else l.value.value < l.policy.scaleIn
  }

  /** How many of the newest counted evaluations in a row were beyond the threshold,
      going back no further than the last attempt. Said of the evaluations alone: the
      evaluator's counters do not occur in it. */
  ghost function Run(looks: seq<Look>, out: bool): nat
    decreases |looks|, 1
  {
    if looks == [] then 0
    else
      var front, l := looks[..|looks| - 1], looks[|looks| - 1];
      if !Counts(l) then Run(front, out)
      else if !Beyond(l, out) || Attempted(looks) then 0
      else 1 + Run(front, out)
  }

  /** The last evaluation was counted, came after the cooldown, and was at least the
      third in a row beyond one of the thresholds. */
  ghost predicate Attempted(looks: seq<Look>)
    requires looks != []
    decreases |looks|, 0
  {
    var front, l := looks[..|looks| - 1], looks[|looks| - 1];
    && Counts(l) && CooldownElapsed(l.policy, l.now)
    && ((Beyond(l, true) && Run(front, true) + 1 >= SCALING_STREAK_THRESHOLD)
        || (Beyond(l, false) && Run(front, false) + 1 >= SCALING_STREAK_THRESHOLD))
  }

  /** The cooldown is over when no action was recorded yet, or as many seconds have gone by
      since the last one; while the clock is behind that action, only without a cooldown. */
  lemma CooldownExactly(p: Policy, now: nat)
    ensures CooldownElapsed(p, now) <==>
              p.lastActionMs == None || p.cooldownSeconds == 0 || now >= p.lastActionMs.value + 1000 * p.cooldownSeconds
  {
  }

  lemma ConsistentFront(looks: seq<Look>, l: Look)
    requires Consistent(looks + [l])
    ensures Consistent(looks) && l.policy.Normalized() && l.policy.lastActionMs == LastActed(After(looks))
  {
    var all := looks + [l];
    forall i | 0 <= i < |looks|
      ensures looks[i].policy.Normalized() && looks[i].policy.lastActionMs == LastActed(After(looks[..i]))
    {
      assert all[i] == looks[i] && all[..i] == looks[..i];
    }
    assert all[|looks|] == l && all[..|looks|] == looks;
  }

  /** What one evaluation does to the counters, in terms of the thresholds alone. */
  lemma StreakAfter(s: Streak, l: Look)
    requires l.policy.Normalized() && (s.above == 0 || s.below == 0)
    ensures var after := Evaluated(s, l.policy, l.value, l.now).0;
            if !Counts(l) then after == s
            else if AttemptOf(s, l).Some? then after == Streak(0, 0)
            else
              after == Streak(if Beyond(l, true) then s.above + 1 else 0, if Beyond(l, false) then s.below + 1 else 0)
  {
  }

  lemma AttemptMeans(s: Streak, l: Look, out: bool)
    requires l.policy.Normalized() && (s.above == 0 || s.below == 0) && Counts(l)
    ensures AttemptOf(s, l) == Some(if out then ScaleOut else ScaleIn) <==>
              && Beyond(l, out) && CooldownElapsed(l.policy, l.now)
              && (if out then s.above else s.below) + 1 >= SCALING_STREAK_THRESHOLD
  {
  }

  lemma RunAfter(front: seq<Look>, l: Look, out: bool)
    requires l.policy.Normalized()
    requires After(front).streak == Streak(Run(front, true), Run(front, false))
    requires Run(front, true) == 0 || Run(front, false) == 0
    ensures Run(front + [l], out)
         == if !Counts(l) then Run(front, out)
            else if AttemptOf(After(front).streak, l).Some? || !Beyond(l, out) then 0
            else Run(front, out) + 1
  {
    assert (front + [l])[..|front|] == front;
    if Counts(l) {
      AttemptMeans(After(front).streak, l, true);
      AttemptMeans(After(front).streak, l, false);
    }
  }

  /** The counters are the runs they stand for, and never both non-zero. */
  lemma {:induction false} StreaksAreRuns(looks: seq<Look>)
    requires Consistent(looks)
    ensures After(looks).streak == Streak(Run(looks, true), Run(looks, false))
    ensures After(looks).streak.above == 0 || After(looks).streak.below == 0
  {
    if looks == [] {
    } else {
      var front, l := looks[..|looks| - 1], looks[|looks| - 1];
      assert looks == front + [l];
      ConsistentFront(front, l);
      StreaksAreRuns(front);
      StreakAfter(After(front).streak, l);
      RunAfter(front, l, true);
      RunAfter(front, l, false);
    }
  }

  /** No action was recorded in the policy's cooldown before this evaluation. */
  ghost predicate Rested(looks: seq<Look>, l: Look) {
    var acted := After(looks).acted;
    || acted == [] || l.policy.cooldownSeconds == 0
    || l.now >= acted[|acted| - 1] + 1000 * l.policy.cooldownSeconds
  }

  /** Once the cooldown is over, an action is attempted if and only if this evaluation
      is at least the third counted one in a row beyond its threshold. */
  lemma AttemptNeedsThree(looks: seq<Look>, l: Look, out: bool)
    requires Consistent(looks + [l])
    ensures AttemptOf(After(looks).streak, l) == Some(if out then ScaleOut else ScaleIn) <==>
              && l.policy.enabled && l.value.Some? && Rested(looks, l)
              && (if out then l.value.value > l.policy.scaleOut else l.value.value < l.policy.scaleIn)
              && Run(looks, out) + 1 >= 3
  {
    ConsistentFront(looks, l);
    CooldownExactly(l.policy, l.now);
    StreaksAreRuns(looks);
    if Counts(l) {
      AttemptMeans(After(looks).streak, l, out);
    }
  }

  ghost predicate Spaced(acted: seq<nat>, gap: nat) {
    forall i {:trigger acted[i]} :: 0 < i < |acted| ==> acted[i] >= acted[i - 1] + gap
  }

  lemma NextSpaced(h: History, l: Look, gap: nat)
    requires Spaced(h.acted, gap) && l.policy.lastActionMs == LastActed(h)
    requires l.policy.cooldownSeconds * 1000 >= gap > 0
    ensures Spaced(Next(h, l).acted, gap)
  {
    if Next(h, l).acted != h.acted {
      assert CooldownElapsed(l.policy, l.now);
    }
  }

  /** Neighbouring recorded actions are a cooldown apart, by the least cooldown the
      policy ever had; with a positive one this also holds when the clock is set back. */
  lemma {:induction false} ActionsKeepCooldown(looks: seq<Look>, seconds: nat)
    requires Consistent(looks)
    requires forall l :: l in looks ==> l.policy.cooldownSeconds >= seconds > 0
    ensures Spaced(After(looks).acted, seconds * 1000)
  {
    if looks == [] {
    } else {
      var front, l := looks[..|looks| - 1], looks[|looks| - 1];
      assert looks == front + [l];
      ConsistentFront(front, l);
      ActionsKeepCooldown(front, seconds);
      NextSpaced(After(front), l, seconds * 1000);
    }
  }
}
