/** The plan tier and usage percentage reported by the analytics endpoint. */
module Analytics {
  import JsMath

  /** A plan: its name and its monthly request limit. */
  datatype Plan = Plan(name: string, limit: nat)

  const Pro: Plan := Plan("Pro", 100000)
  const Starter: Plan := Plan("Starter", 10000)
  const Free: Plan := Plan("Free", 100)

  /** Free < Starter < Pro. */
  function Tier(p: Plan): nat {
    if p == Pro then 2 else if p == Starter then 1 else 0
  }

  /** The plan for this month's request count: above 100,000 Pro, above 10,000 Starter,
      otherwise Free. */
  function PlanFor(totalRequests: nat): (p: Plan)
    ensures p == Pro <==> totalRequests > 100000
    ensures p == Starter <==> 10000 < totalRequests <= 100000
    ensures p == Free <==> totalRequests <= 10000
    ensures p.limit > 0
  {
    if totalRequests > 100000 then Pro
    else if totalRequests > 10000 then Starter
    else Free
  }

  /** `Math.round((totalRequests / plan.limit) * 100)`: the usage as a whole percentage, within
      half a point of the exact ratio. */
  function UsagePercentage(totalRequests: nat): (pct: int)
    ensures var exact := 100.0 * totalRequests as real / PlanFor(totalRequests).limit as real;
            pct as real - 0.5 <= exact < pct as real + 0.5
    ensures pct >= 0
  {
    JsMath.Round(totalRequests as real / PlanFor(totalRequests).limit as real * 100.0)
  }

  /** More requests never put the account on a lower plan. */
  lemma PlanMonotone(t1: nat, t2: nat)
    requires t1 <= t2
    ensures Tier(PlanFor(t1)) <= Tier(PlanFor(t2))
  {
  }

  /** On a paid plan the reported usage is at least 100 percent: the count already exceeds
      that plan's limit. */
  lemma PaidPlanAtLeastFullUsage(totalRequests: nat)
    requires PlanFor(totalRequests) != Free
    ensures UsagePercentage(totalRequests) >= 100
  {
    var limit := PlanFor(totalRequests).limit as real;
    assert totalRequests as real > limit;
    assert totalRequests as real / limit > 1.0;
  }

  /** On the free plan the percentage is the count itself: the limit is 100. */
  lemma FreePlanPercentIsCount(totalRequests: nat)
    requires totalRequests <= 10000
    ensures UsagePercentage(totalRequests) == totalRequests
  {
    assert totalRequests as real / 100.0 * 100.0 == totalRequests as real;
    JsMath.RoundOfInteger(totalRequests);
  }

  /** 10,050 requests on Starter: 100.5 percent, which rounds up to 101. */
  lemma UsageTieRoundsUp()
    ensures UsagePercentage(10050) == 101
  {
    assert PlanFor(10050).limit == 10000;
    assert 10050 as real / 10000 as real * 100.0 + 0.5 == 101.0;
  }
}
