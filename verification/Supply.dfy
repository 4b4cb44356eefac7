/**
 * The reward schedule adds up to less than the maximum supply
 * (consensus/consensus.go, params/economics.go).
 */
module Supply {
  import opened Base
  import opened Params
  import opened Validation

  /** The reward in force after `k` halvings. */
  function Subsidy(k: nat): nat {
    if k >= 64 then 0 else ShiftRight(INITIAL_REWARD, k)
  }

  /** The rewards of heights 0 to `n` - 1. */
  function RewardSum(n: nat): nat {
    if n == 0 then 0 else RewardSum(n - 1) + Subsidy((n - 1) / HALVING_INTERVAL)
  }

  lemma {:induction false} RewardIsSubsidy(height: u64)
    ensures BlockReward(height) == Subsidy(height / HALVING_INTERVAL)
  {
  }

  lemma {:induction false} ShiftStep(x: nat, k: nat)
    ensures ShiftRight(x, k + 1) == ShiftRight(x, k) / 2
  {
    if k > 0 {
      ShiftStep(x / 2, k - 1);
    }
  }

  lemma {:induction false} ShiftAll(x: nat, k: nat)
    requires x < Pow2(k)
    ensures ShiftRight(x, k) == 0
  {
    if k > 0 {
      ShiftAll(x / 2, k - 1);
    }
  }

  /** Each halving at least halves the reward. */
  lemma {:induction false} SubsidyHalves(k: nat)
    ensures 2 * Subsidy(k + 1) <= Subsidy(k)
  {
    ShiftStep(INITIAL_REWARD, k);
  }

  /**
   * The schedule: the first interval pays the initial reward, and every later height
   * half of what was paid one interval before.
   */
  lemma {:induction false} RewardHalves(height: u64)
    ensures height < HALVING_INTERVAL ==> BlockReward(height) == INITIAL_REWARD
    ensures height >= HALVING_INTERVAL ==> BlockReward(height) == BlockReward(height - HALVING_INTERVAL) / 2
  {
    hide ShiftRight;
    var k := height / HALVING_INTERVAL;
    if height < HALVING_INTERVAL {
      assert k == 0;
      SubsidyStart();
    } else {
      assert (height - HALVING_INTERVAL) / HALVING_INTERVAL == k - 1;
      ShiftStep(INITIAL_REWARD, k - 1);
      if k >= 64 {
        LateReward(k - 1);
      }
    }
  }

  /** From the 63rd halving on nothing is paid. */
  lemma {:induction false} LateReward(k: nat)
    requires k >= 63
    ensures Subsidy(k) == 0
  {
    hide Subsidy;
    SubsidyMonotone(36, k);
    LastSubsidy();
  }

  lemma {:induction false} SubsidyMonotone(j: nat, k: nat)
    requires j <= k
    ensures Subsidy(k) <= Subsidy(j)
  {
    if j < k {
      SubsidyMonotone(j, k - 1);
      SubsidyHalves(k - 1);
    }
  }

  lemma {:induction false} LastSubsidy()
    ensures Subsidy(36) == 0
  {
    assert Pow2(36) == 0x10_0000_0000 by {
      Pow2Add(12, 12);
      Pow2Add(24, 12);
      assert Pow2(6) == 64;
      Pow2Add(6, 6);
    }
    ShiftAll(INITIAL_REWARD, 36);
  }

  /** `r` blocks into an interval: the reward `s` for the rest of it and for one interval more. */
  function Reserve(r: nat, s: nat): nat
    requires r < HALVING_INTERVAL
  {
    (2 * HALVING_INTERVAL - r) * s
  }

  lemma {:induction false} ReserveStep(r: nat, s: nat)
    requires r + 1 < HALVING_INTERVAL
    ensures Reserve(r, s) == s + Reserve(r + 1, s)
  {
  }

  lemma {:induction false} ReserveWrap(s: nat, s': nat)
    requires 2 * s' <= s
    ensures s + Reserve(0, s') <= Reserve(HALVING_INTERVAL - 1, s)
  {
  }

  /** The rewards so far and the reserve never exceed the reserve at the start. */
  lemma {:induction false} RewardBudget(n: nat)
    ensures RewardSum(n) + Reserve(n % HALVING_INTERVAL,
              Subsidy(n / HALVING_INTERVAL)) <= 2 * INITIAL_REWARD * HALVING_INTERVAL
  {
    hide Subsidy, Reserve, RewardSum;
    if n == 0 {
      BudgetStart();
    } else {
      RewardBudget(n - 1);
      var k, r := (n - 1) / HALVING_INTERVAL, (n - 1) % HALVING_INTERVAL;
      NextHeight(n - 1);
      NextReward(n);
      if r + 1 < HALVING_INTERVAL {
        ReserveStep(r, Subsidy(k));
      } else {
        SubsidyHalves(k);
        ReserveWrap(Subsidy(k), Subsidy(k + 1));
      }
    }
  }

  lemma {:induction false} BudgetStart()
    ensures RewardSum(0) + Reserve(0 % HALVING_INTERVAL,
              Subsidy(0 / HALVING_INTERVAL)) <= 2 * INITIAL_REWARD * HALVING_INTERVAL
  {
    hide Subsidy;
    SubsidyStart();
  }

  lemma {:induction false} NextReward(n: nat)
    requires n > 0
    ensures RewardSum(n) == RewardSum(n - 1) + Subsidy((n - 1) / HALVING_INTERVAL)
  {
  }

  lemma {:induction false} SubsidyStart()
    ensures Subsidy(0) == INITIAL_REWARD
  {
  }

  lemma {:induction false} NextHeight(n: nat)
    ensures n % HALVING_INTERVAL + 1 < HALVING_INTERVAL ==>
              (n + 1) / HALVING_INTERVAL == n / HALVING_INTERVAL &&
                  (n + 1) % HALVING_INTERVAL == n % HALVING_INTERVAL + 1
    ensures n % HALVING_INTERVAL + 1 == HALVING_INTERVAL ==>
              (n + 1) / HALVING_INTERVAL == n / HALVING_INTERVAL + 1 && (n + 1) % HALVING_INTERVAL == 0
  {
  }

  /** The rewards of any number of blocks stay below the maximum supply, and far below a 64-bit overflow. */
  lemma {:induction false} RewardSumBound(n: nat)
    ensures RewardSum(n) <= 2 * INITIAL_REWARD * HALVING_INTERVAL < MAX_SUPPLY
  {
    hide Reserve, Subsidy;
    RewardBudget(n);
  }

  /** Once a reward is zero, so are all later ones. */
  lemma {:induction false} NoMoreRewards(n: nat, m: nat)
    requires n <= m && Subsidy(n / HALVING_INTERVAL) == 0
    ensures RewardSum(m) == RewardSum(n)
  {
    if n < m {
      NoMoreRewards(n, m - 1);
      SubsidyMonotone(n / HALVING_INTERVAL, (m - 1) / HALVING_INTERVAL);
    }
  }

  datatype SupplyAudit = SupplyAudit(totalSubsidy: u64, pass: bool)

  /**
   * `AuditSupplySchedule` terminates and passes for every `maxHeight`, the largest
   * 64-bit height included, and reports exactly the rewards of heights 0 to `maxHeight`.
   */
  method AuditSupplySchedule(maxHeight: u64) returns (report: Result<SupplyAudit, SupplyAudit>)
    ensures report.Ok? && report.value.totalSubsidy == RewardSum(maxHeight + 1) && report.value.pass
  {
    var total: u64 := 0;
    var height: u64 := 0;
    LastSubsidy();
    while height <= maxHeight
      invariant height <= maxHeight + 1
      invariant height <= 36 * HALVING_INTERVAL
      invariant total == RewardSum(height)
      decreases maxHeight + 1 - height
    {
      var reward: int := ShiftRight(INITIAL_REWARD, height / HALVING_INTERVAL);
      if height / HALVING_INTERVAL >= 64 {
        reward := 0;
      }
      RewardSumBound(height + 1);
      if U64_MAX - total < reward || total + reward > MAX_SUPPLY {
        return Err(SupplyAudit(total, false));
      }
      total := total + reward;
      if reward == 0 {
        NoMoreRewards(height, maxHeight + 1);
        break;
      }
      height := height + 1;
    }
    report := Ok(SupplyAudit(total, total <= MAX_SUPPLY));
    RewardSumBound(maxHeight + 1);
  }
}
