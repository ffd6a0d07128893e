/** When the allocator buys and how much, in terms of the quote, the portfolio, the policy
    and the running state alone. */
module AllocationRules {
  import opened Wrappers
  import opened StableSort
  import opened Allocation
  import opened AllocationRun
  import opened AllocationBatch

  // ---------------------------------------------------------------- the rules

  /** No halt: losses of the day and of the pilot stay above their limits, the research
      order takes no more of the turnover than allowed. */
  predicate NoHalt(q: Quote, c: Context, p: Policy) {
    && c.portfolio.dailyPnl > -(c.portfolio.capital * p.dailyLoss)
    && c.portfolio.pilotPnl > -(c.portfolio.capital * p.pilotDrawdown)
    && q.participation <= p.dailyTurnover
  }

  /** A free position for a listing not yet held. */
  predicate PositionFree(q: Quote, c: Context, p: Policy, s: State) {
    q.listing !in s.keys && |s.keys| < p.maximumOpen && |s.keys| < c.portfolio.openPositions + p.maximumNew
  }

  /** After costs the target pays at least the minimum multiple of what the stop loses. */
  predicate PaysEnough(q: Quote, p: Policy)
    requires q.reference.Some?
  {
    q.target - q.reference.value - q.costBuffer
      >= p.minimumNetRewardRisk * (q.reference.value - q.stop + q.costBuffer)
  }

  /** The first level of the book at the best ask. */
  predicate FirstAsk(q: Quote, k: nat) {
    && k < |q.depth| && q.bestAsk == Some(q.depth[k].price)
    && forall j :: 0 <= j < k ==> q.depth[j].price != q.depth[k].price
  }

  /** The best ask offers enough that `n` shares are within the allowed part of it. */
  ghost predicate AskFits(q: Quote, p: Policy, n: int) {
    exists k: nat :: FirstAsk(q, k) && n as real <= q.depth[k].quantity as real * p.topAsk
  }

  /** Amounts that keep to the risk, notional, exposure and cash limits. */
  predicate AmountsFit(c: Context, p: Policy, s: State, loss: real, notional: real, paid: real) {
    && loss <= c.portfolio.capital * p.perTradeRisk
    && s.risk + loss <= c.portfolio.capital * p.totalOpenRisk
    && notional <= c.portfolio.capital * p.positionNotional
    && s.gross + notional <= c.portfolio.capital * p.grossExposure
    && paid <= s.cash
  }

  /** `n` shares keep to the research order, to every limit on their amounts, and to the
      allowed part of the best ask. */
  ghost predicate Fits(u: Arithmetic, q: Quote, c: Context, p: Policy, s: State, n: int)
    requires q.reference.Some?
  {
    var price, loss := q.reference.value, q.reference.value - q.stop + q.costBuffer;
    && n <= q.orderQuantity && AskFits(q, p, n)
    && AmountsFit(c, p, s, u.times(loss, n), u.times(price, n), u.times(Plus(price, q.costBuffer), n))
  }

  /** Everything a purchase needs besides its quantity. */
  predicate Cleared(q: Quote, c: Context, p: Policy, s: State)
    requires q.reference.Some?
  {
    NoHalt(q, c, p) && PositionFree(q, c, p, s) && PaysEnough(q, p)
  }

  // ---------------------------------------------------------------- the rules are the code's

  lemma RatioIff(reward: real, loss: real, minimum: real)
    requires loss > 0.0
    ensures reward / loss >= minimum <==> reward >= minimum * loss
  {
    assert (reward / loss) * loss == reward;
    ScaleIff(minimum, reward / loss, loss);
  }

  /** The first best ask is where the depth search ends. */
  lemma {:induction false} TopAskIs(bestAsk: real, depth: seq<Level>, k: nat)
    requires k < |depth| && depth[k].price == bestAsk && forall j :: 0 <= j < k ==> depth[j].price != bestAsk
    ensures TopAskQuantity(bestAsk, depth) == Some(depth[k].quantity)
  {
    if k > 0 {
      assert forall j :: 0 <= j < k - 1 ==> depth[1..][j] == depth[j + 1];
      TopAskIs(bestAsk, depth[1..], k - 1);
    }
  }

  lemma {:induction false} TopAskFound(bestAsk: real, depth: seq<Level>) returns (k: nat)
    requires TopAskQuantity(bestAsk, depth).Some?
    ensures k < |depth| && depth[k].price == bestAsk && forall j :: 0 <= j < k ==> depth[j].price != bestAsk
    ensures TopAskQuantity(bestAsk, depth) == Some(depth[k].quantity)
  {
    if depth[0].price == bestAsk {
      k := 0;
    } else {
      k := TopAskFound(bestAsk, depth[1..]);
      assert forall j :: 0 < j < |depth| ==> depth[j] == depth[1..][j - 1];
      k := k + 1;
    }
  }

  lemma AskIff(q: Quote, p: Policy, n: int)
    requires Computable(q)
    ensures n as real <= TopAskQuantity(q.bestAsk.value, q.depth).value as real * p.topAsk
       <==> AskFits(q, p, n)
  {
    var k := TopAskFound(q.bestAsk.value, q.depth);
    assert FirstAsk(q, k);
    forall j: nat | FirstAsk(q, j)
      ensures j == k
    {
    }
  }

  /** Staying inside every limit, spelled out. */
  lemma AffordableIff(u: Arithmetic, q: Quote, c: Context, p: Policy, s: State, n: int)
    requires Computable(q) && u.times(1.0, n) == n as real
    ensures Affordable(u, n, TermsOf(q), LimitsOf(q, c, p), s) <==> Fits(u, q, c, p, s, n)
  {
    AskIff(q, p, n);
  }

  /** No veto but for the quantity: the rules. */
  lemma HaltsIff(q: Quote, c: Context, p: Policy, s: State)
    requires Computable(q)
    ensures (forall r :: !HaltApplies(r, q, c, p, s)) && TermsOf(q).ratio >= p.minimumNetRewardRisk
       <==> Cleared(q, c, p, s)
  {
    RatioIff(q.target - q.reference.value - q.costBuffer, q.reference.value - q.stop + q.costBuffer,
             p.minimumNetRewardRisk);
    if forall r :: !HaltApplies(r, q, c, p, s) {
      assert !HaltApplies(DuplicateOpenListing, q, c, p, s) && !HaltApplies(DailyLossHalt, q, c, p, s);
      assert !HaltApplies(PilotDrawdownHalt, q, c, p, s) && !HaltApplies(MaxOpenPositionsReached, q, c, p, s);
      assert !HaltApplies(MaxNewPositionsPerRunReached, q, c, p, s);
      assert !HaltApplies(ResearchLiquidityPolicyTooWide, q, c, p, s);
    }
  }

  lemma CeilingsIff(k: Ceilings, ratio: real, p: Policy)
    requires k.research >= 1
    ensures (forall r :: !CeilingApplies(r, k, ratio, p)) <==> Feasible(k) >= 1 && ratio >= p.minimumNetRewardRisk
  {
    FeasibleIff(1, k);
    if forall r :: !CeilingApplies(r, k, ratio, p) {
      assert !CeilingApplies(PerTradeRiskTooSmall, k, ratio, p) && !CeilingApplies(TotalOpenRiskExhausted, k, ratio, p);
      assert !CeilingApplies(PositionNotionalCapTooSmall, k, ratio, p) && !CeilingApplies(CashExhausted, k, ratio, p);
      assert !CeilingApplies(GrossExposureExhausted, k, ratio, p) && !CeilingApplies(AskDepthCapTooSmall, k, ratio, p);
      assert !CeilingApplies(NetRewardRiskBelowMinimum, k, ratio, p);
    }
  }

  /** No reason applies exactly when the candidate is cleared and a share is feasible. */
  lemma NoReasonIff(u: Arithmetic, q: Quote, c: Context, p: Policy, s: State)
    requires Computable(q) && q.orderQuantity >= 1
    ensures ReasonsOf(u, q, c, p, s) == {} <==> Cleared(q, c, p, s) && FeasibleFor(u, q, c, p, s) >= 1
  {
    var k, ratio := CeilingsOf(u, TermsOf(q), LimitsOf(q, c, p), s), TermsOf(q).ratio;
    HaltsIff(q, c, p, s);
    CeilingsIff(k, ratio, p);
    if ReasonsOf(u, q, c, p, s) == {} {
      forall r
        ensures !CeilingApplies(r, k, ratio, p) && !HaltApplies(r, q, c, p, s)
      {
        assert r !in ReasonsOf(u, q, c, p, s);
      }
    }
  }

  // ---------------------------------------------------------------- one candidate

  /** A quote on which the allocation of a candidate is defined, as research and the quote
      gate make them. */
  predicate Allocatable(q: Quote) {
    && q.gate.Pass? && Computable(q) && q.reference.value > 0.0 && q.costBuffer >= 0.0
    && q.orderQuantity >= 1 && KeyOk(q.listing)
  }

  /** Whatever the arithmetic, nothing is bought that the rules do not clear. */
  lemma BoughtIsCleared(u: Arithmetic, o: Outcome)
    requires OutcomeOk(u, o) && o.bought
    ensures o.quote.reference.Some? && Cleared(o.quote, o.context, o.policy, o.before)
    ensures 1 <= o.quantity <= o.quote.orderQuantity
  {
    NoReasonIff(u, o.quote, o.context, o.policy, o.before);
  }

  /** In exact arithmetic what is bought fits every limit. */
  lemma BoughtFits(u: Arithmetic, o: Outcome)
    requires Exact(u) && OutcomeOk(u, o) && o.bought
    ensures o.quote.reference.Some? && Fits(u, o.quote, o.context, o.policy, o.before, o.quantity)
  {
    var q := o.quote;
    FeasibleIsLargest(u, o.quantity, TermsOf(q), LimitsOf(q, o.context, o.policy), o.before);
    AffordableIff(u, q, o.context, o.policy, o.before, o.quantity);
  }

  /** What each veto reason says, of a single share and of the fields alone. */
  ghost predicate Stands(u: Arithmetic, r: Reason, q: Quote, c: Context, p: Policy, s: State)
    requires q.reference.Some?
  {
    var price, loss := q.reference.value, q.reference.value - q.stop + q.costBuffer;
    match r
    case DuplicateOpenListing => q.listing in s.keys
    case DailyLossHalt => c.portfolio.dailyPnl + c.portfolio.capital * p.dailyLoss <= 0.0
    case PilotDrawdownHalt => c.portfolio.pilotPnl + c.portfolio.capital * p.pilotDrawdown <= 0.0
    case MaxOpenPositionsReached => p.maximumOpen <= |s.keys|
    case MaxNewPositionsPerRunReached => c.portfolio.openPositions + p.maximumNew <= |s.keys|
    case ResearchLiquidityPolicyTooWide => p.dailyTurnover < q.participation
    case PerTradeRiskTooSmall => c.portfolio.capital * p.perTradeRisk < u.times(loss, 1)
    case TotalOpenRiskExhausted => c.portfolio.capital * p.totalOpenRisk < s.risk + u.times(loss, 1)
    case PositionNotionalCapTooSmall => c.portfolio.capital * p.positionNotional < u.times(price, 1)
    case GrossExposureExhausted => c.portfolio.capital * p.grossExposure < s.gross + u.times(price, 1)
    case CashExhausted => s.cash < u.times(Plus(price, q.costBuffer), 1)
    case AskDepthCapTooSmall => !AskFits(q, p, 1)
    case NetRewardRiskBelowMinimum => !PaysEnough(q, p)
  }

  /** The reasons about a single share. */
  predicate AboutOneShare(r: Reason) {
    || r.PerTradeRiskTooSmall? || r.TotalOpenRiskExhausted? || r.PositionNotionalCapTooSmall?
    || r.GrossExposureExhausted? || r.CashExhausted? || r.AskDepthCapTooSmall? || r.NetRewardRiskBelowMinimum?
  }

  lemma AmountReasonIff(u: Arithmetic, r: Reason, q: Quote, c: Context, p: Policy, s: State)
    requires Exact(u) && Allocatable(q)
    requires AboutOneShare(r) && !r.AskDepthCapTooSmall? && !r.NetRewardRiskBelowMinimum?
    ensures CeilingApplies(r, CeilingsOf(u, TermsOf(q), LimitsOf(q, c, p), s), TermsOf(q).ratio, p)
       <==> Stands(u, r, q, c, p, s)
  {
    var t, l := TermsOf(q), LimitsOf(q, c, p);
    match r
    case PerTradeRiskTooSmall => UnitsIff(u, 1, l.perTrade, t.loss);
    case TotalOpenRiskExhausted => UnitsIff(u, 1, l.openRisk - s.risk, t.loss);
    case PositionNotionalCapTooSmall => UnitsIff(u, 1, l.notional, t.price);
    case GrossExposureExhausted => UnitsIff(u, 1, l.exposure - s.gross, t.price);
    case CashExhausted => UnitsIff(u, 1, s.cash, Plus(t.price, t.cost));
  }

  lemma DepthReasonIff(u: Arithmetic, q: Quote, c: Context, p: Policy, s: State)
    requires Exact(u) && Allocatable(q)
    ensures CeilingsOf(u, TermsOf(q), LimitsOf(q, c, p), s).askDepth < 1 <==> !AskFits(q, p, 1)
  {
    UnitsIff(u, 1, LimitsOf(q, c, p).askDepth, 1.0);
    AskIff(q, p, 1);
  }

  lemma RewardReasonIff(q: Quote, p: Policy)
    requires Allocatable(q)
    ensures TermsOf(q).ratio < p.minimumNetRewardRisk <==> !PaysEnough(q, p)
  {
    RatioIff(q.target - q.reference.value - q.costBuffer, TermsOf(q).loss, p.minimumNetRewardRisk);
  }

  /** The reasons of a veto are exactly those that stand. */
  lemma ReasonIff(u: Arithmetic, r: Reason, q: Quote, c: Context, p: Policy, s: State)
    requires Exact(u) && Allocatable(q)
    ensures r in ReasonsOf(u, q, c, p, s) <==> Stands(u, r, q, c, p, s)
  {
    match r
    case AskDepthCapTooSmall => DepthReasonIff(u, q, c, p, s);
    case NetRewardRiskBelowMinimum => RewardReasonIff(q, p);
    case _ => if AboutOneShare(r) { AmountReasonIff(u, r, q, c, p, s); }
  }

  /** The amounts of a purchase, on the quote's own prices. */
  predicate Priced(u: Arithmetic, o: Outcome) {
    && o.quote.reference.Some?
    && o.notional == u.times(o.quote.reference.value, o.quantity)
    && o.cost == u.times(o.quote.costBuffer, o.quantity)
    && o.loss == u.times(o.quote.reference.value - o.quote.stop + o.quote.costBuffer, o.quantity)
  }

  lemma FitsIffFeasible(u: Arithmetic, q: Quote, c: Context, p: Policy, s: State, n: int)
    requires Exact(u) && Allocatable(q) && n >= 1
    ensures Fits(u, q, c, p, s, n) <==> n <= FeasibleFor(u, q, c, p, s)
  {
    FeasibleIsLargest(u, n, TermsOf(q), LimitsOf(q, c, p), s);
    AffordableIff(u, q, c, p, s, n);
  }

  /** What a verified outcome records. */
  lemma RecordedIs(u: Arithmetic, o: Outcome)
    requires OutcomeOk(u, o)
    ensures Computable(o.quote)
    ensures o.bought <==> ReasonsOf(u, o.quote, o.context, o.policy, o.before) == {}
    ensures o.bought ==> Priced(u, o) && o.quantity == FeasibleFor(u, o.quote, o.context, o.policy, o.before)
  {
  }

  /** A candidate is bought exactly when the rules clear it and one share fits; the quantity
      is then the largest that fits, and its amounts are those of that quantity. */
  lemma BoughtIff(u: Arithmetic, q: Quote, c: Context, p: Policy, s: State)
    requires Exact(u) && ContextOk(c) && PolicyOk(p) && StateOk(s) && Allocatable(q)
    ensures MakeOutcome(u, q, c, p, s).Returned?
    ensures var o := MakeOutcome(u, q, c, p, s).value;
            && (o.bought <==> Cleared(q, c, p, s) && Fits(u, q, c, p, s, 1))
            && (o.bought ==> Priced(u, o) && forall n: int :: n >= 1 ==> (Fits(u, q, c, p, s, n) <==> n <= o.quantity))
  {
    OutcomeIsMade(u, q, c, p, s);
    NoReasonIff(u, q, c, p, s);
    MadeFrom(u, q, c, p, s);
    RecordedIs(u, MakeOutcome(u, q, c, p, s).value);
    forall n: int | n >= 1
      ensures Fits(u, q, c, p, s, n) <==> n <= FeasibleFor(u, q, c, p, s)
    {
      FitsIffFeasible(u, q, c, p, s, n);
    }
  }

  // ---------------------------------------------------------------- whole batches

  /** The state in which the i-th candidate of a batch is looked at. */
  function StateBefore(b: Batch, i: nat): State
    requires i <= |b.outcomes|
  {
    if i == 0 then State(b.context.portfolio.cash, b.context.portfolio.gross, b.context.portfolio.risk, b.context.keys)
    else b.outcomes[i - 1].after
  }

  lemma {:induction false} ChainedAt(u: Arithmetic, outcomes: seq<Outcome>, quotes: seq<Quote>, c: Context, p: Policy,
                                     s: State, i: nat)
    requires Chained(u, outcomes, quotes, c, p, s) && i < |outcomes|
    ensures i < |quotes| && OutcomeOk(u, outcomes[i]) && outcomes[i].quote == quotes[i]
    ensures outcomes[i].context == c && outcomes[i].policy == p
    ensures outcomes[i].before == if i == 0 then s else outcomes[i - 1].after
  {
    if i > 0 {
      ChainedAt(u, outcomes[1..], quotes[1..], c, p, outcomes[0].after, i - 1);
    }
  }

  /** The i-th outcome of an assembled batch is the allocation of its i-th candidate in the
      state that its predecessor left. */
  lemma OutcomeAt(u: Arithmetic, b: Batch, i: nat)
    requires Assembled(u, b.gates, b.context, b.policy) == Returned(b) && i < |b.outcomes|
    ensures i < |Passes(b.gates.quotes)| && b.outcomes[i].quote == Passes(b.gates.quotes)[i]
    ensures MakeOutcome(u, b.outcomes[i].quote, b.context, b.policy, StateBefore(b, i)) == Returned(b.outcomes[i])
    ensures OutcomeOk(u, b.outcomes[i]) && b.outcomes[i].before == StateBefore(b, i)
  {
    var passes := Passes(b.gates.quotes);
    ChainedIffAllocated(u, b.outcomes, passes, b.context, b.policy, b.initial);
    ChainedAt(u, b.outcomes, passes, b.context, b.policy, b.initial, i);
    OutcomeOkIffMade(u, b.outcomes[i]);
  }

  /** Whatever the arithmetic, a batch buys nothing that the rules do not clear in the state
      its predecessors left. */
  lemma BatchBuysOnlyCleared(u: Arithmetic, b: Batch, i: nat)
    requires Assembled(u, b.gates, b.context, b.policy) == Returned(b) && i < |b.outcomes| && b.outcomes[i].bought
    ensures b.outcomes[i].quote.reference.Some?
    ensures Cleared(b.outcomes[i].quote, b.context, b.policy, StateBefore(b, i))
  {
    OutcomeAt(u, b, i);
    ChainedIffAllocated(u, b.outcomes, Passes(b.gates.quotes), b.context, b.policy, b.initial);
    ChainedAt(u, b.outcomes, Passes(b.gates.quotes), b.context, b.policy, b.initial, i);
    BoughtIsCleared(u, b.outcomes[i]);
  }

  /** In exact arithmetic a batch buys exactly the candidates that are cleared and of which a
      share fits, each in the largest quantity that fits. */
  lemma BatchBuysIff(u: Arithmetic, b: Batch, i: nat)
    requires Exact(u) && Assembled(u, b.gates, b.context, b.policy) == Returned(b) && i < |b.outcomes|
    requires Allocatable(b.outcomes[i].quote)
    ensures var q, s := b.outcomes[i].quote, StateBefore(b, i);
            && (b.outcomes[i].bought <==> Cleared(q, b.context, b.policy, s) && Fits(u, q, b.context, b.policy, s, 1))
            && (b.outcomes[i].bought ==>
                  forall n: int :: n >= 1 ==>
                    (Fits(u, q, b.context, b.policy, s, n) <==> n <= b.outcomes[i].quantity))
  {
    OutcomeAt(u, b, i);
    BoughtIff(u, b.outcomes[i].quote, b.context, b.policy, StateBefore(b, i));
  }

  /** A batch looks at exactly the quotes that passed the gate, in their order, keeps the
      others aside in theirs, and is made of a portfolio neither from the future nor too
      old. */
  lemma BatchIsWhole(u: Arithmetic, b: Batch) returns (passed: seq<nat>, vetoed: seq<nat>)
    requires Assembled(u, b.gates, b.context, b.policy) == Returned(b)
    ensures |passed| == |b.outcomes| && Increasing(passed) && |vetoed| == |b.vetoes| && Increasing(vetoed)
    ensures forall i :: 0 <= i < |passed| ==> passed[i] < |b.gates.quotes| && b.outcomes[i].quote == b.gates.quotes[passed[i]]
    ensures forall i :: 0 <= i < |vetoed| ==> vetoed[i] < |b.gates.quotes| && b.vetoes[i] == b.gates.quotes[vetoed[i]]
    ensures forall k :: 0 <= k < |b.gates.quotes| ==>
              (k in passed <==> b.gates.quotes[k].gate.Pass?) && (k in vetoed <==> b.gates.quotes[k].gate.Veto?)
    ensures 0 <= b.gates.evaluatedAt - b.context.portfolio.asOf <= b.policy.maximumAge
  {
    var passes := Passes(b.gates.quotes);
    AssembledIff(u, b);
    passed := SelectIs(b.gates.quotes, (q: Quote) => q.gate.Pass?);
    vetoed := SelectIs(b.gates.quotes, (q: Quote) => q.gate.Veto?);
    forall i | 0 <= i < |passed|
      ensures b.outcomes[i].quote == b.gates.quotes[passed[i]]
    {
      OutcomeAt(u, b, i);
    }
  }
}
