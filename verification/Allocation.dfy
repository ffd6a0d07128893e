/** The operational allocator for one candidate: seven quantity ceilings, thirteen
    vetoes and the running cash, exposure and risk.  How quotients are rounded
    to whole shares and amounts multiplied is a parameter; exact arithmetic is one
    instance of it. */
module Allocation {
  import opened Wrappers
  import opened StableSort
  import opened StringOrder

  datatype Policy = Policy(
    perTradeRisk: real, totalOpenRisk: real, positionNotional: real, grossExposure: real,
    dailyTurnover: real, topAsk: real, dailyLoss: real, pilotDrawdown: real,
    minimumNetRewardRisk: real, maximumOpen: int, maximumNew: int, maximumAge: int)

  datatype Portfolio = Portfolio(capital: real, cash: real, gross: real, risk: real, openPositions: int,
                                 dailyPnl: real, pilotPnl: real, asOf: int)

  datatype Context = Context(portfolio: Portfolio, keys: seq<string>)

  datatype Level = Level(price: real, quantity: int)

  datatype Gate = Pass | Veto

  /** One quote-gate outcome with the parts of its research intent the allocator reads. */
  datatype Quote = Quote(gate: Gate, listing: string, orderQuantity: int, participation: real,
                         stop: real, target: real, costBuffer: real,
                         reference: Option<real>, bestAsk: Option<real>, depth: seq<Level>)

  datatype State = State(cash: real, gross: real, risk: real, keys: seq<string>)

  predicate Fraction(x: real) {
    0.0 < x <= 1.0
  }

  /** What the sizing policy's constructor enforces. */
  predicate PolicyOk(p: Policy) {
    && Fraction(p.perTradeRisk) && Fraction(p.totalOpenRisk) && Fraction(p.positionNotional)
    && Fraction(p.grossExposure) && Fraction(p.dailyTurnover) && Fraction(p.topAsk)
    && Fraction(p.dailyLoss) && Fraction(p.pilotDrawdown)
    && p.minimumNetRewardRisk > 0.0 && 0 < p.maximumNew <= p.maximumOpen
    && p.perTradeRisk <= p.totalOpenRisk && p.positionNotional <= p.grossExposure
    && p.dailyLoss <= p.pilotDrawdown && p.maximumAge > 0
  }

  predicate KeyChar(c: char) {
    'A' <= c <= 'Z' || '0' <= c <= '9' || c == '&' || c == '.' || c == '-'
  }

  predicate KeyOk(key: string) {
    4 < |key| <= 36 && key[..4] == "NSE:" && forall i :: 4 <= i < |key| ==> KeyChar(key[i])
  }

  /** Listing keys in canonical form: well formed, sorted, no key twice. */
  predicate Canonical(keys: seq<string>) {
    && (forall i :: 0 <= i < |keys| ==> KeyOk(keys[i]))
    && (forall i, j :: 0 <= i < j < |keys| ==> StrLe(keys[i], keys[j]) && keys[i] != keys[j])
  }

  predicate PortfolioOk(p: Portfolio) {
    && p.capital > 0.0 && p.cash >= 0.0 && p.gross >= 0.0 && p.risk >= 0.0 && p.openPositions >= 0
    && p.cash + p.gross <= p.capital && p.risk <= p.capital
  }

  predicate ContextOk(c: Context) {
    PortfolioOk(c.portfolio) && Canonical(c.keys) && |c.keys| == c.portfolio.openPositions
  }

  predicate StateOk(s: State) {
    s.cash >= 0.0 && s.gross >= 0.0 && s.risk >= 0.0 && Canonical(s.keys)
  }

  // ---------------------------------------------------------------- arithmetic

  /** How a limit is divided into whole shares of some amount, and how an amount per share
      is multiplied by a number of shares. */
  datatype Arithmetic = Arithmetic(units: (real, real) -> nat, times: (real, int) -> real)

  function FloorUnits(x: real): nat {
    if x <= 0.0 then 0 else x.Floor
  }

  /** Exact quotients and products. */
  function ExactArithmetic(): Arithmetic {
    Arithmetic((limit: real, per: real) => if per == 0.0 then 0 else FloorUnits(limit / per),
               (per: real, n: int) => per * n as real)
  }

  function Plus(x: real, y: real): real {
    x + y
  }

  /** A limit holds the largest whole number of shares whose product stays inside it;
      products keep sign and sums. */
  ghost predicate Exact(u: Arithmetic) {
    && (forall n: int, limit, per {:trigger u.units(limit, per), u.times(per, n)} ::
          n >= 1 && per > 0.0 ==> (n <= u.units(limit, per) <==> u.times(per, n) <= limit))
    && (forall per, n: int {:trigger u.times(per, n)} ::
          n >= 1 ==> (u.times(per, n) >= 0.0 <==> per >= 0.0) && (u.times(per, n) > 0.0 <==> per > 0.0))
    && (forall x, y, n: int {:trigger u.times(Plus(x, y), n)} ::
          u.times(Plus(x, y), n) == u.times(x, n) + u.times(y, n))
    && (forall n: int {:trigger u.times(1.0, n)} :: u.times(1.0, n) == n as real)
  }

  /** Rounding may carry a product over its limit, by no more than `slack`. */
  ghost predicate Within(u: Arithmetic, slack: real) {
    forall n: int, limit, per {:trigger u.units(limit, per), u.times(per, n)} ::
      n >= 1 && per > 0.0 && n <= u.units(limit, per) ==> u.times(per, n) <= limit + slack
  }

  lemma ExactIsWithin(u: Arithmetic)
    requires Exact(u)
    ensures Within(u, 0.0)
  {
  }

  ghost predicate Monotone(u: Arithmetic) {
    forall a, b, per {:trigger u.units(a, per), u.units(b, per)} ::
      a <= b && per > 0.0 ==> u.units(a, per) <= u.units(b, per)
  }

  lemma ScaleIff(x: real, y: real, per: real)
    requires per > 0.0
    ensures x <= y <==> x * per <= y * per
  {
  }

  lemma QuotientIff(n: int, limit: real, per: real)
    requires n >= 1 && per > 0.0
    ensures n <= FloorUnits(limit / per) <==> per * n as real <= limit
  {
    ScaleIff(n as real, limit / per, per);
    assert (limit / per) * per == limit;
  }

  lemma ProductSign(per: real, n: int)
    requires n >= 1
    ensures (per * n as real >= 0.0 <==> per >= 0.0) && (per * n as real > 0.0 <==> per > 0.0)
  {
    if per < 0.0 {
      ScaleIff(-per, -per * n as real, 1.0);
    }
  }

  lemma ProductSums(x: real, y: real, n: int)
    ensures (x + y) * n as real == x * n as real + y * n as real
  {
  }

  /** Floored exact quotients and exact products are exact. */
  lemma ExactArithmeticIsExact()
    ensures Exact(ExactArithmetic())
  {
    var u := ExactArithmetic();
    forall n: int, limit, per | n >= 1 && per > 0.0
      ensures n <= u.units(limit, per) <==> u.times(per, n) <= limit
    {
      QuotientIff(n, limit, per);
    }
    forall per, n: int | n >= 1
      ensures (u.times(per, n) >= 0.0 <==> per >= 0.0) && (u.times(per, n) > 0.0 <==> per > 0.0)
    {
      ProductSign(per, n);
    }
    forall x, y, n: int
      ensures u.times(Plus(x, y), n) == u.times(x, n) + u.times(y, n)
    {
      ProductSums(x, y, n);
    }
  }

  lemma ExactIsMonotone(u: Arithmetic)
    requires Exact(u)
    ensures Monotone(u)
  {
    forall a, b, per | a <= b && per > 0.0
      ensures u.units(a, per) <= u.units(b, per)
    {
      var n := u.units(a, per);
      if n >= 1 {
        assert u.times(per, n) <= a;
      }
    }
  }

  /** The two split risk ceilings equal the single combined one, for every monotone way of
      rounding a quotient to whole shares. */
  lemma SplitCeilingIsCombined(u: Arithmetic, a: real, b: real, per: real)
    requires Monotone(u) && per > 0.0
    ensures Min(u.units(a, per), u.units(b, per)) == u.units(if a <= b then a else b, per)
  {
    assert u.units(a, per) <= u.units(b, per) || u.units(b, per) <= u.units(a, per);
  }

  // ---------------------------------------------------------------- ceilings

  function Max(a: real, b: real): real {
    if a >= b then a else b
  }

  function Min(a: int, b: int): int {
    if a <= b then a else b
  }

  /** The quantity at the best ask, from the first sell level at that price. */
  function TopAskQuantity(bestAsk: real, depth: seq<Level>): Option<int> {
    if depth == [] then None
    else if depth[0].price == bestAsk then Some(depth[0].quantity)
    else TopAskQuantity(bestAsk, depth[1..])
  }

  /** Amounts per share of one candidate, and its research quantity. */
  datatype Terms = Terms(order: int, price: real, cost: real, loss: real, ratio: real)

  /** The amounts that policy and portfolio allow this candidate. */
  datatype Limits = Limits(perTrade: real, openRisk: real, notional: real, exposure: real, askDepth: real)

  datatype Ceilings = Ceilings(research: int, perTradeRisk: nat, totalOpenRisk: nat, positionNotional: nat,
                               grossExposure: nat, cash: nat, askDepth: nat)

  /** A quote on which every ceiling can be computed: a reference price, a positive loss
      and reward per share, no zero divisor, and a top-of-book ask. */
  predicate Computable(q: Quote) {
    && q.reference.Some?
    && q.reference.value - q.stop + q.costBuffer > 0.0
    && q.target - q.reference.value - q.costBuffer > 0.0
    && q.reference.value != 0.0 && q.reference.value + q.costBuffer != 0.0
    && q.bestAsk.Some? && TopAskQuantity(q.bestAsk.value, q.depth).Some?
  }

  function TermsOf(q: Quote): Terms
    requires Computable(q)
  {
    var price := q.reference.value;
    var loss, reward := price - q.stop + q.costBuffer, q.target - price - q.costBuffer;
    Terms(q.orderQuantity, price, q.costBuffer, loss, reward / loss)
  }

  function RiskLimit(c: Context, p: Policy): real {
    c.portfolio.capital * p.totalOpenRisk
  }

  function ExposureLimit(c: Context, p: Policy): real {
    c.portfolio.capital * p.grossExposure
  }

  function LimitsOf(q: Quote, c: Context, p: Policy): Limits
    requires Computable(q)
  {
    Limits(c.portfolio.capital * p.perTradeRisk, RiskLimit(c, p), c.portfolio.capital * p.positionNotional,
           ExposureLimit(c, p), TopAskQuantity(q.bestAsk.value, q.depth).value as real * p.topAsk)
  }

  function CeilingsOf(u: Arithmetic, t: Terms, l: Limits, s: State): Ceilings {
    Ceilings(
      t.order,
      u.units(l.perTrade, t.loss),
      u.units(Max(0.0, l.openRisk - s.risk), t.loss),
      u.units(l.notional, t.price),
      u.units(Max(0.0, l.exposure - s.gross), t.price),
      u.units(s.cash, Plus(t.price, t.cost)),
      u.units(l.askDepth, 1.0))
  }

  /** The smallest of the seven ceilings. */
  function Feasible(k: Ceilings): int {
    Min(k.research, Min(k.perTradeRisk, Min(k.totalOpenRisk, Min(k.positionNotional,
      Min(k.grossExposure, Min(k.cash, k.askDepth))))))
  }

  lemma FeasibleIff(n: int, k: Ceilings)
    ensures n <= Feasible(k)
       <==> n <= k.research && n <= k.perTradeRisk && n <= k.totalOpenRisk && n <= k.positionNotional
            && n <= k.grossExposure && n <= k.cash && n <= k.askDepth
  {
  }

  /** Buying `n` shares stays inside every limit. */
  predicate Affordable(u: Arithmetic, n: int, t: Terms, l: Limits, s: State) {
    && n <= t.order
    && u.times(t.loss, n) <= l.perTrade && u.times(t.loss, n) <= l.openRisk - s.risk
    && u.times(t.price, n) <= l.notional && u.times(t.price, n) <= l.exposure - s.gross
    && u.times(Plus(t.price, t.cost), n) <= s.cash
    && u.times(1.0, n) <= l.askDepth
  }

  lemma UnitsIff(u: Arithmetic, n: int, limit: real, per: real)
    requires Exact(u) && n >= 1 && per > 0.0
    ensures n <= u.units(limit, per) <==> u.times(per, n) <= limit
    ensures n <= u.units(Max(0.0, limit), per) <==> u.times(per, n) <= limit
  {
    assert u.times(per, n) > 0.0;
  }

  /** The feasible quantity is the largest number of shares inside every limit: a positive
      quantity is affordable exactly when it does not exceed it. */
  lemma FeasibleIsLargest(u: Arithmetic, n: int, t: Terms, l: Limits, s: State)
    requires Exact(u) && n >= 1 && t.price > 0.0 && t.cost >= 0.0 && t.loss > 0.0
    ensures n <= Feasible(CeilingsOf(u, t, l, s)) <==> Affordable(u, n, t, l, s)
  {
    FeasibleIff(n, CeilingsOf(u, t, l, s));
    UnitsIff(u, n, l.perTrade, t.loss);
    UnitsIff(u, n, l.openRisk - s.risk, t.loss);
    UnitsIff(u, n, l.notional, t.price);
    UnitsIff(u, n, l.exposure - s.gross, t.price);
    UnitsIff(u, n, s.cash, Plus(t.price, t.cost));
    UnitsIff(u, n, l.askDepth, 1.0);
  }

  // ---------------------------------------------------------------- vetoes

  datatype Reason =
    | DuplicateOpenListing | DailyLossHalt | PilotDrawdownHalt | MaxOpenPositionsReached
    | MaxNewPositionsPerRunReached | ResearchLiquidityPolicyTooWide | PerTradeRiskTooSmall
    | TotalOpenRiskExhausted | PositionNotionalCapTooSmall | GrossExposureExhausted | CashExhausted
    | AskDepthCapTooSmall | NetRewardRiskBelowMinimum

  /** When a reason about the candidate's own ceilings applies. */
  predicate CeilingApplies(r: Reason, k: Ceilings, ratio: real, p: Policy) {
    match r
    case PerTradeRiskTooSmall => k.perTradeRisk < 1
    case TotalOpenRiskExhausted => k.totalOpenRisk < 1
    case PositionNotionalCapTooSmall => k.positionNotional < 1
    case GrossExposureExhausted => k.grossExposure < 1
    case CashExhausted => k.cash < 1
    case AskDepthCapTooSmall => k.askDepth < 1
    case NetRewardRiskBelowMinimum => ratio < p.minimumNetRewardRisk
    case _ => false
  }

  /** When a reason about the portfolio, the run or the research order applies. */
  predicate HaltApplies(r: Reason, q: Quote, c: Context, p: Policy, s: State) {
    match r
    case DuplicateOpenListing => q.listing in s.keys
    case DailyLossHalt => c.portfolio.dailyPnl <= -(c.portfolio.capital * p.dailyLoss)
    case PilotDrawdownHalt => c.portfolio.pilotPnl <= -(c.portfolio.capital * p.pilotDrawdown)
    case MaxOpenPositionsReached => |s.keys| >= p.maximumOpen
    case MaxNewPositionsPerRunReached => |s.keys| - c.portfolio.openPositions >= p.maximumNew
    case ResearchLiquidityPolicyTooWide => q.participation > p.dailyTurnover
    case _ => false
  }

  /** When a reason vetoes a candidate. */
  predicate Applies(r: Reason, k: Ceilings, ratio: real, q: Quote, c: Context, p: Policy, s: State) {
    CeilingApplies(r, k, ratio, p) || HaltApplies(r, q, c, p, s)
  }

  function ReasonsOf(u: Arithmetic, q: Quote, c: Context, p: Policy, s: State): set<Reason>
    requires Computable(q)
  {
    var k := CeilingsOf(u, TermsOf(q), LimitsOf(q, c, p), s);
    set r: Reason | Applies(r, k, TermsOf(q).ratio, q, c, p, s)
  }

  function FeasibleFor(u: Arithmetic, q: Quote, c: Context, p: Policy, s: State): int
    requires Computable(q)
  {
    Feasible(CeilingsOf(u, TermsOf(q), LimitsOf(q, c, p), s))
  }

  /** With a research quantity of at least one, an infeasible quantity always has a reason;
      the evaluation's own error for a missing reason needs a research order below one. */
  lemma InfeasibleHasReason(u: Arithmetic, q: Quote, c: Context, p: Policy, s: State)
    requires Computable(q) && q.orderQuantity >= 1 && FeasibleFor(u, q, c, p, s) < 1
    ensures ReasonsOf(u, q, c, p, s) != {}
  {
    var t := TermsOf(q);
    var k := CeilingsOf(u, t, LimitsOf(q, c, p), s);
    FeasibleIff(1, k);
    TooSmallIsReason(k, t.ratio, q, c, p, s);
    var r: Reason :| Applies(r, k, t.ratio, q, c, p, s);
    assert r in ReasonsOf(u, q, c, p, s);
  }

  lemma TooSmallIsReason(k: Ceilings, ratio: real, q: Quote, c: Context, p: Policy, s: State)
    requires k.perTradeRisk < 1 || k.totalOpenRisk < 1 || k.positionNotional < 1 || k.grossExposure < 1
          || k.cash < 1 || k.askDepth < 1
    ensures exists r: Reason :: Applies(r, k, ratio, q, c, p, s)
  {
    assert Applies(PerTradeRiskTooSmall, k, ratio, q, c, p, s) || Applies(TotalOpenRiskExhausted, k, ratio, q, c, p, s)
        || Applies(PositionNotionalCapTooSmall, k, ratio, q, c, p, s) || Applies(CashExhausted, k, ratio, q, c, p, s)
        || Applies(GrossExposureExhausted, k, ratio, q, c, p, s) || Applies(AskDepthCapTooSmall, k, ratio, q, c, p, s);
  }

  // ---------------------------------------------------------------- later states never loosen

  /** A state later in a run: less cash, more exposure and risk, more open keys. */
  ghost predicate Tighter(s: State, t: State) {
    t.cash <= s.cash && t.gross >= s.gross && t.risk >= s.risk && forall k :: k in s.keys ==> k in t.keys
  }

  lemma LaterCeilings(u: Arithmetic, t: Terms, l: Limits, s: State, later: State)
    requires Monotone(u) && t.price > 0.0 && t.cost >= 0.0 && t.loss > 0.0 && Tighter(s, later)
    ensures var before, after := CeilingsOf(u, t, l, s), CeilingsOf(u, t, l, later);
            && after.research == before.research && after.perTradeRisk == before.perTradeRisk
            && after.totalOpenRisk <= before.totalOpenRisk && after.positionNotional == before.positionNotional
            && after.grossExposure <= before.grossExposure && after.cash <= before.cash
            && after.askDepth == before.askDepth
  {
  }

  lemma FewerUnitsMoreReasons(k: Ceilings, l: Ceilings, ratio: real, q: Quote, c: Context, p: Policy,
                              s: State, later: State, r: Reason)
    requires l.perTradeRisk <= k.perTradeRisk && l.totalOpenRisk <= k.totalOpenRisk
    requires l.positionNotional <= k.positionNotional && l.grossExposure <= k.grossExposure
    requires l.cash <= k.cash && l.askDepth <= k.askDepth
    requires (q.listing in s.keys ==> q.listing in later.keys) && |s.keys| <= |later.keys|
    requires Applies(r, k, ratio, q, c, p, s)
    ensures Applies(r, l, ratio, q, c, p, later)
  {
  }

  /** A later state never loosens a candidate: no larger quantity, no fewer vetoes. */
  lemma LaterNeverLoosens(u: Arithmetic, q: Quote, c: Context, p: Policy, s: State, later: State)
    requires Monotone(u) && Computable(q) && q.reference.value > 0.0 && q.costBuffer >= 0.0
    requires Tighter(s, later) && Canonical(s.keys)
    ensures FeasibleFor(u, q, c, p, later) <= FeasibleFor(u, q, c, p, s)
    ensures ReasonsOf(u, q, c, p, s) <= ReasonsOf(u, q, c, p, later)
  {
    var t, l := TermsOf(q), LimitsOf(q, c, p);
    var k, m := CeilingsOf(u, t, l, s), CeilingsOf(u, t, l, later);
    LaterCeilings(u, t, l, s, later);
    FeasibleIff(Feasible(m), k);
    FeasibleIff(Feasible(m), m);
    AllAmong(s.keys, later.keys);
    forall r | Applies(r, k, t.ratio, q, c, p, s)
      ensures Applies(r, m, t.ratio, q, c, p, later)
    {
      FewerUnitsMoreReasons(k, m, t.ratio, q, c, p, s, later, r);
    }
  }
}
