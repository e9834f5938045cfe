// src/execution/capital_allocator.py: shares of equity per strategy, with a reserved buffer.
//
// `strategy_max_pct` is the list of its items in dictionary order, with distinct names.
module CapitalAllocator {
  import opened Prelude

  datatype Share = Share(strategy: string, maxPct: real)

  datatype Config = Config(shares: seq<Share>, bufferPct: real)

  datatype Allocation = Allocation(strategy: string, maxPct: real, used: real, available: real, degraded: bool)

  function TotalPct(shares: seq<Share>): real {
    if shares == [] then 0.0 else TotalPct(Front(shares)) + Last(shares).maxPct
  }

  predicate DistinctNames(shares: seq<Share>) {
    forall i, j :: 0 <= i < j < |shares| ==> shares[i].strategy != shares[j].strategy
  }

  /** A configuration that `__post_init__` lets through. */
  predicate Valid(cfg: Config) {
    DistinctNames(cfg.shares) && TotalPct(cfg.shares) + cfg.bufferPct <= 1.0
  }

  function NewConfig(shares: seq<Share>, bufferPct: real): (r: Result<Config>)
    requires DistinctNames(shares)
    ensures r.Ok? <==> TotalPct(shares) + bufferPct <= 1.0
    ensures r.Ok? ==> Valid(r.value)
  {
    if TotalPct(shares) + bufferPct > 1.0 then Err("strategy allocations + buffer exceeds 1.0")
    else Ok(Config(shares, bufferPct))
  }

  const DEFAULT := Config([Share("mean_reversion", 0.25), Share("funding_capture", 0.50)], 0.25)

  // ----- allocate ------------------------------------------------------------------------

  type Usage = map<string, real>

  function Used(usage: Usage, name: string): (u: real)
    ensures u >= 0.0
  {
    Max(0.0, if name in usage then usage[name] else 0.0)
  }

  function TotalUsed(shares: seq<Share>, usage: Usage): (u: real)
    ensures u >= 0.0
  {
    if shares == [] then 0.0 else TotalUsed(Front(shares), usage) + Used(usage, Last(shares).strategy)
  }

  function OtherUsed(shares: seq<Share>, usage: Usage, name: string): real {
    if shares == [] then 0.0
    else
      OtherUsed(Front(shares), usage, name) +
      if Last(shares).strategy != name then Used(usage, Last(shares).strategy) else 0.0
  }

  /** A strategy's nominal share in dollars. */
  function Nominal(equity: real, s: Share): real {
    equity * s.maxPct
  }

  /** Equity outside the buffer. */
  function Spendable(equity: real, cfg: Config): real {
    equity - equity * cfg.bufferPct
  }

  function AllocateOne(equity: real, usage: Usage, cfg: Config, s: Share): Allocation {
    if equity <= 0.0 then Allocation(s.strategy, s.maxPct, 0.0, 0.0, false)
    else
      var used := Used(usage, s.strategy);
      var nominalAvailable := Max(0.0, Nominal(equity, s) - used);
      var residual := Max(0.0, Spendable(equity, cfg) - OtherUsed(cfg.shares, usage, s.strategy) - used);
      var available := Min(nominalAvailable, residual);
      Allocation(s.strategy, s.maxPct, used, available, available < nominalAvailable)
  }

  /** One allocation per declared strategy, in declaration order. */
  function Allocate(equity: real, usage: Usage, cfg: Config): (out: seq<Allocation>)
    ensures |out| == |cfg.shares|
    ensures forall i :: 0 <= i < |out| ==> out[i] == AllocateOne(equity, usage, cfg, cfg.shares[i])
    ensures forall i :: 0 <= i < |out| ==> out[i].strategy == cfg.shares[i].strategy && out[i].available >= 0.0
    ensures equity <= 0.0 ==> forall i :: 0 <= i < |out| ==> out[i].available == 0.0 && !out[i].degraded
  {
    seq(|cfg.shares|, i requires 0 <= i < |cfg.shares| => AllocateOne(equity, usage, cfg, cfg.shares[i]))
  }

  // ----- Sums over the strategies --------------------------------------------------------

  lemma {:induction false} OthersAndSelf(shares: seq<Share>, usage: Usage, i: nat)
    requires DistinctNames(shares) && i < |shares|
    ensures OtherUsed(shares, usage, shares[i].strategy) + Used(usage, shares[i].strategy) == TotalUsed(shares, usage)
  {
    if i < |shares| - 1 {
      OthersAndSelf(Front(shares), usage, i);
    } else {
      OthersOnly(Front(shares), usage, shares[i].strategy);
    }
  }

  lemma {:induction false} OthersOnly(shares: seq<Share>, usage: Usage, name: string)
    requires forall j :: 0 <= j < |shares| ==> shares[j].strategy != name
    ensures OtherUsed(shares, usage, name) == TotalUsed(shares, usage)
  {
    if shares != [] {
      OthersOnly(Front(shares), usage, name);
    }
  }

  /** What an allocation grants, in terms of the total rather than of the others. */
  lemma GrantOf(equity: real, usage: Usage, cfg: Config, i: nat)
    requires Valid(cfg) && equity > 0.0 && i < |cfg.shares|
    ensures var a, s := AllocateOne(equity, usage, cfg, cfg.shares[i]), cfg.shares[i];
      var nominalLeft, spendableLeft :=
        Nominal(equity, s) - Used(usage, s.strategy), Spendable(equity, cfg) - TotalUsed(cfg.shares, usage);
      && Allocate(equity, usage, cfg)[i] == a
      && a.used == Used(usage, s.strategy)
      && a.available == Max(0.0, Min(nominalLeft, spendableLeft))
      && (a.degraded <==> Max(0.0, spendableLeft) < nominalLeft)
  {
    OthersAndSelf(cfg.shares, usage, i);
  }

  /** The three amounts a grant is made of: a missing or negative use is none. */
  lemma InDollars(equity: real, usage: Usage, cfg: Config, s: Share)
    ensures Used(usage, s.strategy)
         == if s.strategy in usage && usage[s.strategy] > 0.0 then usage[s.strategy] else 0.0
    ensures Nominal(equity, s) == equity * s.maxPct
    ensures Spendable(equity, cfg) == equity * (1.0 - cfg.bufferPct)
  {
  }

  /** The grant is what is left of the share, or of the equity outside the buffer, whichever is smaller. */
  lemma GrantIsSmaller(equity: real, usage: Usage, cfg: Config, i: nat)
    requires Valid(cfg) && i < |cfg.shares|
    ensures var a, s := Allocate(equity, usage, cfg)[i], cfg.shares[i];
      var ofShare := Nominal(equity, s) - Used(usage, s.strategy);
      var ofEquity := Spendable(equity, cfg) - TotalUsed(cfg.shares, usage);
      var smaller := if ofShare <= ofEquity then ofShare else ofEquity;
      && a.strategy == s.strategy && a.maxPct == s.maxPct
      && (equity <= 0.0 ==> a.used == 0.0 && a.available == 0.0 && !a.degraded)
      && (equity > 0.0 ==>
            && a.used == Used(usage, s.strategy)
            && a.available == (if smaller > 0.0 then smaller else 0.0)
            && (a.degraded <==> ofShare > 0.0 && ofShare > ofEquity))
  {
    if equity > 0.0 {
      GrantOf(equity, usage, cfg, i);
    }
    hide Spendable, Nominal, TotalUsed, Used;
  }

  /** The grants of the two shipped strategies; a quarter of the equity is kept back from both. */
  lemma ShippedGrants(equity: real, usage: Usage)
    requires equity > 0.0
    ensures var out := Allocate(equity, usage, DEFAULT);
      var used0, used1 := Used(usage, "mean_reversion"), Used(usage, "funding_capture");
      && Valid(DEFAULT) && |out| == 2
      && out[0].strategy == "mean_reversion" && out[1].strategy == "funding_capture"
      && out[0].available == Max(0.0, Min(0.25 * equity - used0, 0.75 * equity - used0 - used1))
      && out[1].available == Max(0.0, Min(0.5 * equity - used1, 0.75 * equity - used0 - used1))
  {
    var shares := DEFAULT.shares;
    assert Front(shares) == [shares[0]] && Front([shares[0]]) == [];
    assert TotalPct([shares[0]]) == 0.25 && TotalPct(shares) == 0.75;
    assert TotalUsed([shares[0]], usage) == Used(usage, "mean_reversion");
    assert shares[0].strategy[0] != shares[1].strategy[0];
    hide Used;
    GrantOf(equity, usage, DEFAULT, 0);
    GrantOf(equity, usage, DEFAULT, 1);
  }

  lemma {:induction false} TotalAfterUpdate(shares: seq<Share>, usage: Usage, i: nat, amount: real)
    requires DistinctNames(shares) && i < |shares| && amount >= 0.0
    ensures TotalUsed(shares, usage[shares[i].strategy := amount])
         == TotalUsed(shares, usage) - Used(usage, shares[i].strategy) + amount
  {
    var name := shares[i].strategy;
    if i < |shares| - 1 {
      TotalAfterUpdate(Front(shares), usage, i, amount);
    } else {
      SameTotal(Front(shares), usage, usage[name := amount]);
    }
  }

  lemma {:induction false} SameTotal(shares: seq<Share>, a: Usage, b: Usage)
    requires forall j :: 0 <= j < |shares| ==> Used(a, shares[j].strategy) == Used(b, shares[j].strategy)
    ensures TotalUsed(shares, a) == TotalUsed(shares, b)
  {
    if shares != [] {
      SameTotal(Front(shares), a, b);
    }
  }

  // ----- Runs: strategies open within their allocation, or close -------------------------

  datatype Move = Open(i: nat, amount: real) | Close(i: nat, amount: real)

  predicate Allowed(move: Move, equity: real, usage: Usage, cfg: Config) {
    && move.i < |cfg.shares|
    && 0.0 <= move.amount
    && move.amount <= (if move.Open? then Allocate(equity, usage, cfg)[move.i].available
                       else Used(usage, cfg.shares[move.i].strategy))
  }

  function Apply(move: Move, usage: Usage, cfg: Config): Usage
    requires move.i < |cfg.shares|
  {
    var name := cfg.shares[move.i].strategy;
    usage[name := Used(usage, name) + if move.Open? then move.amount else -move.amount]
  }

  /** Every move of the run respects the allocation computed just before it. */
  predicate AllowedRun(moves: seq<Move>, equity: real, cfg: Config) {
    moves == [] ||
    (AllowedRun(Front(moves), equity, cfg) && Allowed(Last(moves), equity, UsageAfter(Front(moves), cfg), cfg))
  }

  function UsageAfter(moves: seq<Move>, cfg: Config): Usage {
    if moves == [] then map[]
    else
      var before := UsageAfter(Front(moves), cfg);
      if Last(moves).i < |cfg.shares| then Apply(Last(moves), before, cfg) else before
  }

  /** The buffer is intact and nobody uses more than the nominal share. */
  predicate WithinBudget(equity: real, usage: Usage, cfg: Config) {
    && TotalUsed(cfg.shares, usage) <= Max(0.0, Spendable(equity, cfg))
    && forall j :: 0 <= j < |cfg.shares| ==>
         Used(usage, cfg.shares[j].strategy) <= Max(0.0, Nominal(equity, cfg.shares[j]))
  }

  lemma MoveKeepsBudget(move: Move, equity: real, usage: Usage, cfg: Config)
    requires Valid(cfg) && equity > 0.0 && Allowed(move, equity, usage, cfg) && WithinBudget(equity, usage, cfg)
    ensures WithinBudget(equity, Apply(move, usage, cfg), cfg)
  {
    var name := cfg.shares[move.i].strategy;
    var after := Apply(move, usage, cfg);
    GrantOf(equity, usage, cfg, move.i);
    TotalAfterUpdate(cfg.shares, usage, move.i, after[name]);
    forall j | 0 <= j < |cfg.shares|
      ensures Used(after, cfg.shares[j].strategy) <= Max(0.0, Nominal(equity, cfg.shares[j]))
    {
      if j != move.i {
        assert cfg.shares[j].strategy != name;
      }
    }
  }

  /** From zero use, no run of allowed moves of any number of strategies touches the buffer. */
  lemma {:induction false} BufferIsPreserved(moves: seq<Move>, equity: real, cfg: Config)
    requires Valid(cfg) && equity > 0.0 && AllowedRun(moves, equity, cfg)
    ensures WithinBudget(equity, UsageAfter(moves, cfg), cfg)
  {
    if moves == [] {
      NothingUsed(cfg.shares);
    } else {
      BufferIsPreserved(Front(moves), equity, cfg);
      MoveKeepsBudget(Last(moves), equity, UsageAfter(Front(moves), cfg), cfg);
    }
  }

  lemma {:induction false} NothingUsed(shares: seq<Share>)
    ensures TotalUsed(shares, map[]) == 0.0
  {
    if shares != [] {
      NothingUsed(Front(shares));
    }
  }

  // ----- Degradation is somebody else's excess ---------------------------------------------

  predicate OverShare(equity: real, usage: Usage, s: Share) {
    Used(usage, s.strategy) > Nominal(equity, s)
  }

  /** All nominal shares together. */
  function NominalTotal(shares: seq<Share>, equity: real): real {
    if shares == [] then 0.0 else NominalTotal(Front(shares), equity) + Nominal(equity, Last(shares))
  }

  lemma {:induction false} NominalTotalIsScaled(shares: seq<Share>, equity: real)
    ensures NominalTotal(shares, equity) == equity * TotalPct(shares)
  {
    if shares != [] {
      NominalTotalIsScaled(Front(shares), equity);
    }
  }

  /** The shares of an accepted configuration leave the buffer. */
  lemma SharesLeaveBuffer(equity: real, cfg: Config)
    requires equity > 0.0 && Valid(cfg)
    ensures NominalTotal(cfg.shares, equity) <= Spendable(equity, cfg)
  {
    NominalTotalIsScaled(cfg.shares, equity);
    var slack := 1.0 - cfg.bufferPct - TotalPct(cfg.shares);
    ProductNonNegative(equity, slack);
    assert equity * slack == equity - equity * cfg.bufferPct - equity * TotalPct(cfg.shares);
  }

  lemma {:induction false} OthersWithinShares(shares: seq<Share>, equity: real, usage: Usage)
    requires forall j :: 0 <= j < |shares| ==> !OverShare(equity, usage, shares[j])
    ensures TotalUsed(shares, usage) <= NominalTotal(shares, equity)
  {
    if shares != [] {
      OthersWithinShares(Front(shares), equity, usage);
      assert !OverShare(equity, usage, shares[|shares| - 1]);
    }
  }

  /** If everybody else stays within a share, one strategy's own share is still free. */
  lemma {:induction false} RoomForOne(shares: seq<Share>, equity: real, usage: Usage, i: nat)
    requires DistinctNames(shares) && i < |shares|
    requires forall j :: 0 <= j < |shares| && j != i ==> !OverShare(equity, usage, shares[j])
    ensures OtherUsed(shares, usage, shares[i].strategy) + Nominal(equity, shares[i]) <= NominalTotal(shares, equity)
  {
    if i < |shares| - 1 {
      RoomForOne(Front(shares), equity, usage, i);
      assert !OverShare(equity, usage, shares[|shares| - 1]);
    } else {
      OthersWithinShares(Front(shares), equity, usage);
      OthersOnly(Front(shares), usage, shares[i].strategy);
    }
  }

  /** A strategy is degraded only if some other strategy uses more than its share. */
  lemma DegradedByOthers(equity: real, usage: Usage, cfg: Config, i: nat)
    requires Valid(cfg) && i < |cfg.shares| && Allocate(equity, usage, cfg)[i].degraded
    ensures exists j :: 0 <= j < |cfg.shares| && j != i && OverShare(equity, usage, cfg.shares[j])
  {
    if forall j :: 0 <= j < |cfg.shares| && j != i ==> !OverShare(equity, usage, cfg.shares[j]) {
      NotDegraded(equity, usage, cfg, i);
      assert false;
    }
  }

  lemma NotDegraded(equity: real, usage: Usage, cfg: Config, i: nat)
    requires Valid(cfg) && i < |cfg.shares|
    requires forall j :: 0 <= j < |cfg.shares| && j != i ==> !OverShare(equity, usage, cfg.shares[j])
    ensures !Allocate(equity, usage, cfg)[i].degraded
  {
    if equity > 0.0 {
      RoomForOne(cfg.shares, equity, usage, i);
      OthersAndSelf(cfg.shares, usage, i);
      SharesLeaveBuffer(equity, cfg);
      GrantOf(equity, usage, cfg, i);
    }
  }

  // ----- Can everybody open at once? --------------------------------------------------------

  function TotalGranted(equity: real, usage: Usage, cfg: Config, n: nat): real
    requires n <= |cfg.shares|
  {
    if n == 0 then 0.0
    else TotalGranted(equity, usage, cfg, n - 1) + Allocate(equity, usage, cfg)[n - 1].available
  }

  lemma {:induction false} GrantsWithinShares(equity: real, usage: Usage, cfg: Config, n: nat)
    requires Valid(cfg) && equity > 0.0 && n <= |cfg.shares|
    requires forall j :: 0 <= j < n ==> !OverShare(equity, usage, cfg.shares[j])
    ensures TotalUsed(cfg.shares[..n], usage) + TotalGranted(equity, usage, cfg, n)
         <= NominalTotal(cfg.shares[..n], equity)
  {
    if n > 0 {
      GrantsWithinShares(equity, usage, cfg, n - 1);
      assert Front(cfg.shares[..n]) == cfg.shares[..n - 1];
      GrantOf(equity, usage, cfg, n - 1);
      assert !OverShare(equity, usage, cfg.shares[n - 1]);
    }
  }

  /** While nobody exceeds a share, all grants taken together still leave the buffer. */
  lemma JointGrantsFit(equity: real, usage: Usage, cfg: Config)
    requires Valid(cfg) && equity > 0.0
    requires forall j :: 0 <= j < |cfg.shares| ==> !OverShare(equity, usage, cfg.shares[j])
    ensures TotalUsed(cfg.shares, usage) + TotalGranted(equity, usage, cfg, |cfg.shares|) <= Spendable(equity, cfg)
  {
    assert cfg.shares[..|cfg.shares|] == cfg.shares;
    GrantsWithinShares(equity, usage, cfg, |cfg.shares|);
    SharesLeaveBuffer(equity, cfg);
  }

  /** Two strategies can always both take their grant, whoever is over. */
  lemma TwoGrantsFit(equity: real, usage: Usage, cfg: Config)
    requires Valid(cfg) && equity > 0.0 && |cfg.shares| == 2
    ensures TotalUsed(cfg.shares, usage) + TotalGranted(equity, usage, cfg, 2)
         <= Max(TotalUsed(cfg.shares, usage), Spendable(equity, cfg))
  {
    GrantOf(equity, usage, cfg, 0);
    GrantOf(equity, usage, cfg, 1);
    assert TotalGranted(equity, usage, cfg, 1) == Allocate(equity, usage, cfg)[0].available;
    if !OverShare(equity, usage, cfg.shares[0]) && !OverShare(equity, usage, cfg.shares[1]) {
      JointGrantsFit(equity, usage, cfg);
    }
  }

  // ----- ... for every usage, exactly when? --------------------------------------------------

  /** Whatever is in use, all grants taken together do not push use past the spendable equity. */
  predicate GrantsFit(equity: real, usage: Usage, cfg: Config) {
    TotalUsed(cfg.shares, usage) + TotalGranted(equity, usage, cfg, |cfg.shares|)
      <= Max(TotalUsed(cfg.shares, usage), Spendable(equity, cfg))
  }

  predicate AtMostOnePositiveShare(cfg: Config) {
    forall i, j :: 0 <= i < j < |cfg.shares| ==> cfg.shares[i].maxPct <= 0.0 || cfg.shares[j].maxPct <= 0.0
  }

  /** The configurations that cannot offer the same residual to two strategies. */
  predicate NeverOffersTwice(cfg: Config) {
    |cfg.shares| <= 2 || AtMostOnePositiveShare(cfg) || cfg.bufferPct >= 1.0
  }

  lemma ShareInDollars(equity: real, s: Share, cfg: Config)
    requires equity > 0.0
    ensures Nominal(equity, s) > 0.0 <==> s.maxPct > 0.0
    ensures Spendable(equity, cfg) > 0.0 <==> cfg.bufferPct < 1.0
  {
    var rest := 1.0 - cfg.bufferPct;
    assert equity * rest == Spendable(equity, cfg);
    if s.maxPct > 0.0 {
      ProductPositive(equity, s.maxPct);
    } else {
      ProductNonNegative(equity, -s.maxPct);
    }
    if rest > 0.0 {
      ProductPositive(equity, rest);
    } else {
      ProductNonNegative(equity, -rest);
    }
  }

  /** A strategy without a positive share is offered nothing; nobody is when the buffer is everything. */
  lemma NoGrant(equity: real, usage: Usage, cfg: Config, i: nat)
    requires Valid(cfg) && equity > 0.0 && i < |cfg.shares|
    requires cfg.shares[i].maxPct <= 0.0 || cfg.bufferPct >= 1.0
    ensures Allocate(equity, usage, cfg)[i].available == 0.0
  {
    GrantOf(equity, usage, cfg, i);
    ShareInDollars(equity, cfg.shares[i], cfg);
  }

  /** If only strategy p can be offered anything, that is all that is offered. */
  lemma {:induction false} OnlyGrant(equity: real, usage: Usage, cfg: Config, p: nat, n: nat)
    requires Valid(cfg) && equity > 0.0 && n <= |cfg.shares| && p < |cfg.shares|
    requires forall i :: 0 <= i < n && i != p ==> cfg.shares[i].maxPct <= 0.0 || cfg.bufferPct >= 1.0
    ensures TotalGranted(equity, usage, cfg, n) == if p < n then Allocate(equity, usage, cfg)[p].available else 0.0
  {
    if n > 0 {
      OnlyGrant(equity, usage, cfg, p, n - 1);
      if n - 1 != p {
        NoGrant(equity, usage, cfg, n - 1);
      }
    }
  }

  lemma SingleGrantFits(equity: real, usage: Usage, cfg: Config, p: nat)
    requires Valid(cfg) && equity > 0.0 && p < |cfg.shares|
    requires forall i :: 0 <= i < |cfg.shares| && i != p ==> cfg.shares[i].maxPct <= 0.0 || cfg.bufferPct >= 1.0
    ensures GrantsFit(equity, usage, cfg)
  {
    OnlyGrant(equity, usage, cfg, p, |cfg.shares|);
    GrantOf(equity, usage, cfg, p);
  }

  lemma FitsIfNeverTwice(equity: real, usage: Usage, cfg: Config)
    requires Valid(cfg) && equity > 0.0 && NeverOffersTwice(cfg)
    ensures GrantsFit(equity, usage, cfg)
  {
    if |cfg.shares| == 2 {
      TwoGrantsFit(equity, usage, cfg);
    } else if |cfg.shares| > 0 {
      var p := if i :| 0 <= i < |cfg.shares| && cfg.shares[i].maxPct > 0.0 then i else 0;
      SingleGrantFits(equity, usage, cfg, p);
    }
  }

  /** Grants are never negative, so the total is at least any two of them. */
  lemma {:induction false} TwoOfTheGrants(equity: real, usage: Usage, cfg: Config, i: nat, j: nat, n: nat)
    requires i < j < |cfg.shares| && n <= |cfg.shares|
    ensures var out := Allocate(equity, usage, cfg);
      TotalGranted(equity, usage, cfg, n)
        >= (if i < n then out[i].available else 0.0) + (if j < n then out[j].available else 0.0)
  {
    if n > 0 {
      TwoOfTheGrants(equity, usage, cfg, i, j, n - 1);
    }
  }

  /** One strategy uses all but `gap` of the spendable equity, and two others are both offered that gap. */
  lemma GapOfferedTwice(equity: real, cfg: Config, i: nat, j: nat, k: nat, gap: real)
    requires Valid(cfg) && equity > 0.0 && i < j < |cfg.shares| && k < |cfg.shares| && k != i && k != j
    requires 0.0 < gap <= Nominal(equity, cfg.shares[i]) && gap <= Nominal(equity, cfg.shares[j])
    requires gap <= Spendable(equity, cfg)
    ensures !GrantsFit(equity, map[cfg.shares[k].strategy := Spendable(equity, cfg) - gap], cfg)
  {
    var name, amount := cfg.shares[k].strategy, Spendable(equity, cfg) - gap;
    var none: Usage := map[];
    var usage: Usage := map[name := amount];
    assert usage == none[name := amount];
    NothingUsed(cfg.shares);
    TotalAfterUpdate(cfg.shares, none, k, amount);
    GrantOf(equity, usage, cfg, i);
    GrantOf(equity, usage, cfg, j);
    assert cfg.shares[i].strategy != name && cfg.shares[j].strategy != name;
    TwoOfTheGrants(equity, usage, cfg, i, j, |cfg.shares|);
  }

  /**
   * Joint grants fit whatever is in use exactly when there are at most two strategies, or at
   * most one has a positive share, or the buffer is everything.
   */
  lemma GrantsAlwaysFitIff(equity: real, cfg: Config)
    requires Valid(cfg) && equity > 0.0
    ensures (forall usage: Usage :: GrantsFit(equity, usage, cfg)) <==> NeverOffersTwice(cfg)
  {
    if NeverOffersTwice(cfg) {
      forall usage: Usage
        ensures GrantsFit(equity, usage, cfg)
      {
        FitsIfNeverTwice(equity, usage, cfg);
      }
    } else {
      var i, j :| 0 <= i < j < |cfg.shares| && cfg.shares[i].maxPct > 0.0 && cfg.shares[j].maxPct > 0.0;
      var k := if i > 0 then 0 else if j > 1 then 1 else 2;
      ShareInDollars(equity, cfg.shares[i], cfg);
      ShareInDollars(equity, cfg.shares[j], cfg);
      var gap := Min(Min(Nominal(equity, cfg.shares[i]), Nominal(equity, cfg.shares[j])), Spendable(equity, cfg));
      hide GrantsFit, Nominal, Spendable;
      GapOfferedTwice(equity, cfg, i, j, k, gap);
    }
  }
}
