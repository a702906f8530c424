/** Sizing the block pool from a memory budget (edgerag/core/budget.py), and what admission makes of
    the result. */
module Budgets {
  import opened Common
  import opened Tensors
  import opened Arenas
  import opened Requests
  import opened Scheduling
  import opened LifecycleProofs
  import P = Pools

  datatype PoolPlan = PoolPlan(
    numBlocks: nat,
    blockSize: nat,
    reserve: nat,
    budget: int,
    weights: int,
    activation: int,
    kvPerToken: nat)

  function PoolBytes(p: PoolPlan): nat {
    p.numBlocks * p.blockSize * p.kvPerToken
  }

  function TotalBytes(p: PoolPlan): int {
    p.weights + p.activation + PoolBytes(p)
  }

  predicate PlanFits(p: PoolPlan) {
    TotalBytes(p) <= p.budget
  }

  function MaxPromptTokens(p: PoolPlan): nat {
    if p.numBlocks < p.reserve then 0 else (p.numBlocks - p.reserve) * p.blockSize
  }

  function PlanPool(kvPerToken: nat, weights: int, activation: int, budget: int, blockSize: nat, reserve: nat): Result<PoolPlan>
    requires blockSize * kvPerToken > 0
  {
    var spare := budget - weights - activation;
    var blocks := spare / (blockSize * kvPerToken);
    if blocks < 1 then Err(BudgetExceeded)
    else Ok(PoolPlan(blocks, blockSize, reserve, budget, weights, activation, kvPerToken))
  }

  /** The plan is the largest pool that fits: any number of blocks up to it leaves weights, activation and pool
      within the budget, one more does not; it is for the block size and the reserve that were asked for; and
      planning fails exactly when not even one block fits. */
  lemma LargestThatFits(kvPerToken: nat, weights: int, activation: int, budget: int, blockSize: nat, reserve: nat, n: nat)
    requires blockSize * kvPerToken > 0
    ensures var r := PlanPool(kvPerToken, weights, activation, budget, blockSize, reserve);
      && (r.Ok? <==> weights + activation + blockSize * kvPerToken <= budget)
      && (r.Err? ==> r.error == BudgetExceeded)
      && (r.Ok? ==>
            && var p := r.value;
            && p == PoolPlan(p.numBlocks, blockSize, reserve, budget, weights, activation, kvPerToken)
            && PlanFits(p) && p.numBlocks >= 1
            && TotalBytes(p.(numBlocks := n)) == weights + activation + n * blockSize * kvPerToken
            && (weights + activation + n * blockSize * kvPerToken <= budget <==> n <= p.numBlocks)
            && MaxPromptTokens(p) == Max(0, (p.numBlocks - reserve) * blockSize))
  {
    var unit := blockSize * kvPerToken;
    var spare := budget - weights - activation;
    DivBounds(spare, unit);
    var q := spare / unit;
    BytesAre(n, blockSize, kvPerToken);
    if q >= 1 { BytesAre(q, blockSize, kvPerToken); }
    assert (q + 1) * unit == q * unit + unit;
    if n <= q { MulLe(n, q, unit); } else { MulLe(q + 1, n, unit); }
    if 1 <= q { MulLe(1, q, unit); } else { MulLe(q + 1, 1, unit); }
    if q >= 1 {
      if q < reserve { MulLe(q - reserve, 0, blockSize); } else { MulLe(0, q - reserve, blockSize); }
    }
  }

  lemma BytesAre(n: nat, blockSize: nat, kvPerToken: nat)
    ensures n * blockSize * kvPerToken == n * (blockSize * kvPerToken)
  {
  }

  // ------------------------------------------------------------------------------------ admission

  /** A request at the head of the queue of an idle server built to a plan. */
  ghost predicate IdleWith(sys: Sys, p: PoolPlan, cfg: Config, r: Request) {
    && sys.waiting != [] && sys.running == [] && At(sys.reqs, sys.waiting[0]) == r
    && sys.arena.store.pool.blockSize == p.blockSize > 0 && NumFree(sys) == p.numBlocks
    && cfg.reserve == p.reserve && cfg.maxBatch > 0 && cfg.maxPrefills > 0
  }

  /** Budget and admission agree: on an idle pool, the head request is admitted exactly when its prompt
      and everything it may generate is no longer than the plan's longest admissible prompt. */
  lemma AdmittedIffWithinPlan(sys: Sys, p: PoolPlan, cfg: Config, r: Request)
    requires IdleWith(sys, p, cfg, r)
    ensures sys.waiting[0] in Schedule(cfg, sys).1.prefill <==> |r.prompt| + r.maxNew <= MaxPromptTokens(p)
    ensures |r.prompt| + r.maxNew > MaxPromptTokens(p) ==> Schedule(cfg, sys) == (sys, Batch([], []))
  {
    hide CeilDiv;
    var n, bs := |r.prompt| + r.maxNew, p.blockSize;
    CeilDivAdjunction(n, bs, if p.numBlocks < p.reserve then 0 else p.numBlocks - p.reserve);
    assert Needed(sys, r) <= Available(cfg, sys) <==> n <= MaxPromptTokens(p);
    var b := Batch([], []);
    assert Pick(cfg, sys.reqs, sys.running, b) == b;
    if Needed(sys, r) <= Available(cfg, sys) {
      var id := sys.waiting[0];
      var sys1 := sys.(waiting := sys.waiting[1..], reqs := sys.reqs[id := r.(state := Prefilling)], running := sys.running + [id]);
      var b1 := b.(prefill := b.prefill + [id]);
      assert Admit(cfg, sys, b) == Admit(cfg, sys1, b1);
      AdmitGrows(cfg, sys1, b1);
      assert id in b1.prefill;
    }
  }

  /** Sizing and admission together: on an idle server built to the plan for a budget, the head request is
      admitted exactly when weights, activation, the reserve and every block it may ever need are within
      that budget (a request that needs no block always is). */
  lemma AdmittedIffWithinBudget(kvPerToken: nat, weights: int, activation: int, budget: int, blockSize: nat, reserve: nat, sys: Sys, cfg: Config, r: Request)
    requires blockSize * kvPerToken > 0
    requires var plan := PlanPool(kvPerToken, weights, activation, budget, blockSize, reserve); plan.Ok? && IdleWith(sys, plan.value, cfg, r)
    ensures sys.arena.store.pool.blockSize == blockSize > 0
    ensures sys.waiting[0] in Schedule(cfg, sys).1.prefill <==>
      |r.prompt| + r.maxNew == 0
      || weights + activation + (CeilDiv(|r.prompt| + r.maxNew, blockSize) + reserve) * blockSize * kvPerToken <= budget
  {
    hide CeilDiv, Schedule;
    var p := PlanPool(kvPerToken, weights, activation, budget, blockSize, reserve).value;
    var tokens := |r.prompt| + r.maxNew;
    LargestThatFits(kvPerToken, weights, activation, budget, blockSize, reserve, CeilDiv(tokens, blockSize) + reserve);
    AdmittedIffWithinPlan(sys, p, cfg, r);
    CeilDivAdjunction(tokens, blockSize, if p.numBlocks < reserve then 0 else p.numBlocks - reserve);
    CeilDivAdjunction(tokens, blockSize, 0);
  }
}
