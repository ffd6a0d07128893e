/** Allocation outcomes and whole batches: evaluating one candidate, folding the
    quote-gate's passes in order, and verifying a finished batch. */
module AllocationRun {
  import opened Wrappers
  import opened StableSort
  import opened StringOrder
  import opened Allocation

  datatype Evaluation = Evaluation(bought: bool, reasons: set<Reason>, quantity: int,
                                   notional: real, cost: real, loss: real, ratio: real, after: State)

  /** What `n` shares cost, tie up and put at risk. */
  datatype Amounts = Amounts(notional: real, cost: real, loss: real)

  function AmountsOf(u: Arithmetic, n: int, t: Terms): Amounts {
    Amounts(u.times(t.price, n), u.times(t.cost, n), u.times(t.loss, n))
  }

  function AfterBuying(a: Amounts, listing: string, s: State): State {
    State(s.cash - a.notional - a.cost, s.gross + a.notional, s.risk + a.loss, Sort(s.keys + [listing], StrLe))
  }

  /** The allocation of one candidate: an error, a veto with its reasons, or a purchase of
      the feasible quantity. */
  function Evaluate(u: Arithmetic, q: Quote, c: Context, p: Policy, s: State): Result<Evaluation> {
    if !Computable(q) then Raised
    else
      var t, reasons, n := TermsOf(q), ReasonsOf(u, q, c, p, s), FeasibleFor(u, q, c, p, s);
      if reasons != {} then Returned(Evaluation(false, reasons, 0, 0.0, 0.0, 0.0, t.ratio, s))
      else if n < 1 then Raised
      else
        var a := AmountsOf(u, n, t);
        var after := AfterBuying(a, q.listing, s);
        if StateOk(after) then Returned(Evaluation(true, {}, n, a.notional, a.cost, a.loss, t.ratio, after)) else Raised
  }

  method CollectHalts(q: Quote, c: Context, p: Policy, s: State) returns (reasons: set<Reason>)
    ensures forall r :: r in reasons <==> HaltApplies(r, q, c, p, s)
  {
    reasons := {};
    if q.listing in s.keys { reasons := reasons + {DuplicateOpenListing}; }
    if q.participation > p.dailyTurnover { reasons := reasons + {ResearchLiquidityPolicyTooWide}; }
    if c.portfolio.dailyPnl <= -(c.portfolio.capital * p.dailyLoss) { reasons := reasons + {DailyLossHalt}; }
    if c.portfolio.pilotPnl <= -(c.portfolio.capital * p.pilotDrawdown) { reasons := reasons + {PilotDrawdownHalt}; }
    if |s.keys| >= p.maximumOpen { reasons := reasons + {MaxOpenPositionsReached}; }
    if |s.keys| - c.portfolio.openPositions >= p.maximumNew { reasons := reasons + {MaxNewPositionsPerRunReached}; }
  }

  method CollectCeilings(k: Ceilings, ratio: real, p: Policy) returns (reasons: set<Reason>)
    ensures forall r :: r in reasons <==> CeilingApplies(r, k, ratio, p)
  {
    reasons := {};
    if ratio < p.minimumNetRewardRisk { reasons := reasons + {NetRewardRiskBelowMinimum}; }
    if k.perTradeRisk < 1 { reasons := reasons + {PerTradeRiskTooSmall}; }
    if k.totalOpenRisk < 1 { reasons := reasons + {TotalOpenRiskExhausted}; }
    if k.positionNotional < 1 { reasons := reasons + {PositionNotionalCapTooSmall}; }
    if k.grossExposure < 1 { reasons := reasons + {GrossExposureExhausted}; }
    if k.cash < 1 { reasons := reasons + {CashExhausted}; }
    if k.askDepth < 1 { reasons := reasons + {AskDepthCapTooSmall}; }
  }

  /** The reasons, collected one test at a time. */
  method CollectReasons(u: Arithmetic, q: Quote, c: Context, p: Policy, s: State) returns (reasons: set<Reason>)
    requires Computable(q)
    ensures reasons == ReasonsOf(u, q, c, p, s)
  {
    var t := TermsOf(q);
    var k := CeilingsOf(u, t, LimitsOf(q, c, p), s);
    var halts := CollectHalts(q, c, p, s);
    var small := CollectCeilings(k, t.ratio, p);
    reasons := halts + small;
    assert forall r: Reason :: r in reasons <==> Applies(r, k, t.ratio, q, c, p, s);
  }

  // ---------------------------------------------------------------- outcomes

  datatype Outcome = Outcome(quote: Quote, context: Context, policy: Policy, before: State, after: State,
                             bought: bool, reasons: set<Reason>, quantity: int, reference: real,
                             notional: real, cost: real, loss: real, ratio: real)

  /** What an outcome's constructor verifies. */
  predicate OutcomeOk(u: Arithmetic, o: Outcome) {
    && o.quote.gate.Pass? && ContextOk(o.context) && PolicyOk(o.policy) && StateOk(o.before) && StateOk(o.after)
    && o.reference > 0.0 && o.notional >= 0.0 && o.cost >= 0.0 && o.loss >= 0.0
    && Evaluate(u, o.quote, o.context, o.policy, o.before)
       == Returned(Evaluation(o.bought, o.reasons, o.quantity, o.notional, o.cost, o.loss, o.ratio, o.after))
    && Some(o.reference) == o.quote.reference
    && o.quantity <= o.quote.orderQuantity
    && (if o.bought then o.reasons == {} && o.quantity > 0
        else o.reasons != {} && o.quantity == 0 && o.notional == 0.0 && o.cost == 0.0 && o.loss == 0.0
             && o.after == o.before)
  }

  function MakeOutcome(u: Arithmetic, q: Quote, c: Context, p: Policy, s: State): Result<Outcome> {
    match Evaluate(u, q, c, p, s)
    case Raised => Raised
    case Returned(e) =>
      var o := Outcome(q, c, p, s, e.after, e.bought, e.reasons, e.quantity,
                       if q.reference.Some? then q.reference.value else 0.0,
                       e.notional, e.cost, e.loss, e.ratio);
      if OutcomeOk(u, o) then Returned(o) else Raised
  }

  /** An outcome verifies exactly when it is the one made from its own inputs. */
  lemma OutcomeOkIffMade(u: Arithmetic, o: Outcome)
    ensures OutcomeOk(u, o) <==> MakeOutcome(u, o.quote, o.context, o.policy, o.before) == Returned(o)
  {
  }

  // ---------------------------------------------------------------- one step is safe

  /** A listing key added to canonical keys. */
  lemma KeyAdded(keys: seq<string>, key: string)
    requires Canonical(keys) && KeyOk(key) && key !in keys
    ensures Canonical(Sort(keys + [key], StrLe))
    ensures |Sort(keys + [key], StrLe)| == |keys| + 1
    ensures forall k :: k in Sort(keys + [key], StrLe) <==> k in keys || k == key
  {
    var all := keys + [key];
    StrLeIsTotalOrder();
    SortSorted(all, StrLe);
    SortPermutes(all, StrLe);
    SortKeepsApart(all, StrLe);
    forall i | 0 <= i < |all|
      ensures KeyOk(Sort(all, StrLe)[i])
    {
      assert Sort(all, StrLe)[i] in all;
    }
  }

  /** The limits a purchase respects. */
  ghost predicate PurchaseSafe(o: Outcome) {
    var capital := o.context.portfolio.capital;
    && o.loss <= capital * o.policy.perTradeRisk && o.notional <= capital * o.policy.positionNotional
    && o.after.gross <= ExposureLimit(o.context, o.policy) && o.after.risk <= RiskLimit(o.context, o.policy)
  }

  /** A purchase opens exactly its own, new, position. */
  ghost predicate PositionSafe(o: Outcome) {
    && |o.before.keys| < o.policy.maximumOpen
    && |o.before.keys| - o.context.portfolio.openPositions < o.policy.maximumNew
    && o.quote.listing !in o.before.keys && |o.after.keys| == |o.before.keys| + 1
    && forall k :: k in o.after.keys <==> k in o.before.keys || k == o.quote.listing
  }

  /** The running state moves by exactly the outcome's amounts. */
  ghost predicate StateMoves(o: Outcome) {
    && o.after.cash == o.before.cash - o.notional - o.cost && o.after.cash >= 0.0
    && o.after.gross == o.before.gross + o.notional
    && o.after.risk == o.before.risk + o.loss
    && Canonical(o.after.keys)
  }

  /** What one outcome does to the running state. */
  ghost predicate StepMoves(o: Outcome) {
    && StateMoves(o)
    && (o.bought ==> PositionSafe(o))
    && (!o.bought ==> o.after == o.before && o.notional == 0.0 && o.cost == 0.0 && o.loss == 0.0)
  }

  /** What one outcome does to the running state, and the limits it respects. */
  ghost predicate StepSafe(o: Outcome) {
    StepMoves(o) && (o.bought ==> PurchaseSafe(o))
  }

  /** The amounts of an affordable purchase. */
  lemma PurchaseInLimits(u: Arithmetic, n: int, t: Terms, l: Limits, s: State)
    requires Exact(u) && n >= 1 && Affordable(u, n, t, l, s) && t.price > 0.0 && t.cost >= 0.0 && t.loss > 0.0
    ensures var a := AmountsOf(u, n, t);
            && 0.0 <= a.loss <= l.perTrade && 0.0 <= a.notional <= l.notional && 0.0 <= a.cost
            && s.risk + a.loss <= l.openRisk && s.gross + a.notional <= l.exposure
            && a.notional + a.cost <= s.cash
  {
    assert u.times(Plus(t.price, t.cost), n) == u.times(t.price, n) + u.times(t.cost, n);
  }

  /** No reason applies: the counts and the key are free. */
  lemma NoReasons(u: Arithmetic, q: Quote, c: Context, p: Policy, s: State)
    requires Computable(q) && ReasonsOf(u, q, c, p, s) == {}
    ensures q.listing !in s.keys && |s.keys| < p.maximumOpen && |s.keys| - c.portfolio.openPositions < p.maximumNew
  {
    var t := TermsOf(q);
    var k := CeilingsOf(u, t, LimitsOf(q, c, p), s);
    assert DuplicateOpenListing !in ReasonsOf(u, q, c, p, s);
    assert MaxOpenPositionsReached !in ReasonsOf(u, q, c, p, s);
    assert MaxNewPositionsPerRunReached !in ReasonsOf(u, q, c, p, s);
    assert !Applies(DuplicateOpenListing, k, t.ratio, q, c, p, s);
    assert !Applies(MaxOpenPositionsReached, k, t.ratio, q, c, p, s);
    assert !Applies(MaxNewPositionsPerRunReached, k, t.ratio, q, c, p, s);
  }

  lemma KeysStayKnown(keys: seq<string>, key: string)
    requires Canonical(Sort(keys + [key], StrLe))
    ensures KeyOk(key)
  {
    SortPermutes(keys + [key], StrLe);
    assert key in multiset(keys + [key]);
    var sorted := Sort(keys + [key], StrLe);
    assert key in multiset(sorted);
    var i :| 0 <= i < |sorted| && sorted[i] == key;
  }

  lemma PurchaseIsSafe(u: Arithmetic, o: Outcome)
    requires Exact(u) && OutcomeOk(u, o) && o.bought
    ensures PurchaseSafe(o)
  {
    var t, l := TermsOf(o.quote), LimitsOf(o.quote, o.context, o.policy);
    assert u.times(t.cost, o.quantity) == o.cost;
    FeasibleIsLargest(u, o.quantity, t, l, o.before);
    PurchaseInLimits(u, o.quantity, t, l, o.before);
  }

  /** A purchase under rounding: each limit is exceeded by no more than the slack. */
  lemma PurchaseWithin(u: Arithmetic, slack: real, o: Outcome)
    requires Within(u, slack) && OutcomeOk(u, o) && o.bought
    ensures o.after.gross <= Max(o.before.gross, ExposureLimit(o.context, o.policy)) + slack
    ensures o.after.risk <= Max(o.before.risk, RiskLimit(o.context, o.policy)) + slack
  {
    var t, l, n := TermsOf(o.quote), LimitsOf(o.quote, o.context, o.policy), o.quantity;
    FeasibleIff(n, CeilingsOf(u, t, l, o.before));
    StateIsMoved(u, o);
    assert u.times(t.price, n) == o.notional && u.times(t.loss, n) == o.loss;
    assert u.times(t.price, n) <= Max(0.0, l.exposure - o.before.gross) + slack;
    assert u.times(t.loss, n) <= Max(0.0, l.openRisk - o.before.risk) + slack;
  }

  lemma PositionIsSafe(u: Arithmetic, o: Outcome)
    requires OutcomeOk(u, o) && o.bought
    ensures PositionSafe(o)
  {
    var q, c, p, s := o.quote, o.context, o.policy, o.before;
    NoReasons(u, q, c, p, s);
    KeysStayKnown(s.keys, q.listing);
    KeyAdded(s.keys, q.listing);
  }

  lemma StateIsMoved(u: Arithmetic, o: Outcome)
    requires OutcomeOk(u, o)
    ensures StateMoves(o)
  {
    if o.bought {
      assert o.after == AfterBuying(Amounts(o.notional, o.cost, o.loss), o.quote.listing, o.before);
    }
  }

  /** Whatever the arithmetic, a verified outcome moves the state by its own amounts and
      opens at most its own position. */
  lemma OutcomeMoves(u: Arithmetic, o: Outcome)
    requires OutcomeOk(u, o)
    ensures StepMoves(o)
  {
    StateIsMoved(u, o);
    if o.bought {
      PositionIsSafe(u, o);
    }
  }

  /** In exact arithmetic every verified outcome is a safe step. */
  lemma OutcomeIsSafe(u: Arithmetic, o: Outcome)
    requires Exact(u) && OutcomeOk(u, o)
    ensures StepSafe(o)
  {
    OutcomeMoves(u, o);
    if o.bought {
      PurchaseIsSafe(u, o);
    }
  }

  /** On well-formed quotes no check of the outcome or of its new state ever fails. */
  lemma OutcomeIsMade(u: Arithmetic, q: Quote, c: Context, p: Policy, s: State)
    requires Exact(u) && ContextOk(c) && PolicyOk(p) && StateOk(s)
    requires q.gate.Pass? && Computable(q) && q.reference.value > 0.0 && q.costBuffer >= 0.0
    requires q.orderQuantity >= 1 && KeyOk(q.listing)
    ensures MakeOutcome(u, q, c, p, s).Returned?
  {
    var t, l, n := TermsOf(q), LimitsOf(q, c, p), FeasibleFor(u, q, c, p, s);
    if ReasonsOf(u, q, c, p, s) == {} {
      if n < 1 {
        InfeasibleHasReason(u, q, c, p, s);
      } else {
        FeasibleIsLargest(u, n, t, l, s);
        FeasibleIff(n, CeilingsOf(u, t, l, s));
        PurchaseInLimits(u, n, t, l, s);
        NoReasons(u, q, c, p, s);
        KeyAdded(s.keys, q.listing);
      }
    }
  }
}
