/** Whole allocation batches: the assembler's fold over the quote-gate's passes, the
    batch verifier, the safety of every run, and the decision built on it. */
module AllocationBatch {
  import opened Wrappers
  import opened StableSort
  import opened Allocation
  import opened AllocationRun

  /** One quote-gate batch, as far as allocation reads it. */
  datatype Gates = Gates(quotes: seq<Quote>, evaluatedAt: int)

  datatype Batch = Batch(gates: Gates, context: Context, policy: Policy, outcomes: seq<Outcome>,
                         vetoes: seq<Quote>, initial: State, final: State, boughtCount: nat, vetoCount: nat)

  function Passes(quotes: seq<Quote>): seq<Quote> {
    Select(quotes, (q: Quote) => q.gate.Pass?)
  }

  function Vetoes(quotes: seq<Quote>): seq<Quote> {
    Select(quotes, (q: Quote) => q.gate.Veto?)
  }

  function InitialState(c: Context): State {
    State(c.portfolio.cash, c.portfolio.gross, c.portfolio.risk, c.keys)
  }

  /** The portfolio snapshot is neither from the future nor too old. */
  predicate Timely(g: Gates, c: Context, p: Policy) {
    c.portfolio.asOf <= g.evaluatedAt && g.evaluatedAt - c.portfolio.asOf <= p.maximumAge
  }

  /** Candidates in order, each in the state its predecessor left. */
  function Allocate(u: Arithmetic, quotes: seq<Quote>, c: Context, p: Policy, s: State): Result<seq<Outcome>> {
    if quotes == [] then Returned([])
    else
      match MakeOutcome(u, quotes[0], c, p, s)
      case Raised => Raised
      case Returned(o) =>
        match Allocate(u, quotes[1..], c, p, o.after)
        case Raised => Raised
        case Returned(rest) => Returned([o] + rest)
  }

  function FinalState(s: State, outcomes: seq<Outcome>): State {
    if outcomes == [] then s else outcomes[|outcomes| - 1].after
  }

  function Bought(outcomes: seq<Outcome>): seq<Outcome> {
    Select(outcomes, (o: Outcome) => o.bought)
  }

  function BatchOf(g: Gates, c: Context, p: Policy, outcomes: seq<Outcome>): Batch {
    var initial := InitialState(c);
    var bought := |Bought(outcomes)|;
    Batch(g, c, p, outcomes, Vetoes(g.quotes), initial, FinalState(initial, outcomes),
          bought, if bought <= |outcomes| then |outcomes| - bought else 0)
  }

  /** What the assembler returns, by recursion over the candidates. */
  function Assembled(u: Arithmetic, g: Gates, c: Context, p: Policy): Result<Batch> {
    if !ContextOk(c) || !PolicyOk(p) || !Timely(g, c, p) then Raised
    else
      match Allocate(u, Passes(g.quotes), c, p, InitialState(c))
      case Raised => Raised
      case Returned(outcomes) => Returned(BatchOf(g, c, p, outcomes))
  }

  lemma {:induction false} SelectAtMost<T>(s: seq<T>, pick: T -> bool)
    ensures |Select(s, pick)| <= |s|
  {
    if s != [] {
      SelectAtMost(s[1..], pick);
    }
  }

  // ---------------------------------------------------------------- the assembler's loop

  function Prepend(done: seq<Outcome>, rest: Result<seq<Outcome>>): Result<seq<Outcome>> {
    match rest
    case Raised => Raised
    case Returned(outcomes) => Returned(done + outcomes)
  }

  lemma OneAllocated(u: Arithmetic, left: seq<Quote>, c: Context, p: Policy, s: State, done: seq<Outcome>)
    requires left != []
    ensures match MakeOutcome(u, left[0], c, p, s)
            case Raised => Prepend(done, Allocate(u, left, c, p, s)) == Raised
            case Returned(o) => Prepend(done, Allocate(u, left, c, p, s))
                                == Prepend(done + [o], Allocate(u, left[1..], c, p, o.after))
  {
    match MakeOutcome(u, left[0], c, p, s)
    case Raised =>
    case Returned(o) =>
      match Allocate(u, left[1..], c, p, o.after)
      case Raised =>
      case Returned(rest) => assert done + ([o] + rest) == (done + [o]) + rest;
  }

  method Assemble(u: Arithmetic, g: Gates, c: Context, p: Policy) returns (r: Result<Batch>)
    ensures r == Assembled(u, g, c, p)
  {
    if !ContextOk(c) || !PolicyOk(p) || !Timely(g, c, p) {
      return Raised;
    }
    var passes := Passes(g.quotes);
    var state := InitialState(c);
    var outcomes: seq<Outcome> := [];
    var i := 0;
    ghost var all := Allocate(u, passes, c, p, state);
    assert passes[0..] == passes;
    assert all.Returned? ==> [] + all.value == all.value;
    while i < |passes|
      invariant i <= |passes|
      invariant Prepend(outcomes, Allocate(u, passes[i..], c, p, state)) == all
      invariant state == FinalState(InitialState(c), outcomes)
    {
      OneAllocated(u, passes[i..], c, p, state, outcomes);
      assert passes[i..][0] == passes[i] && passes[i..][1..] == passes[i + 1..];
      var made := MakeOutcome(u, passes[i], c, p, state);
      if made.Raised? {
        return Raised;
      }
      outcomes := outcomes + [made.value];
      state := made.value.after;
      i := i + 1;
    }
    assert outcomes + [] == outcomes;
    SelectAtMost(outcomes, (o: Outcome) => o.bought);
    r := Returned(BatchOf(g, c, p, outcomes));
  }

  // ---------------------------------------------------------------- the verifier

  /** The outcomes are the candidates' own, chained from the given state. */
  ghost predicate Chained(u: Arithmetic, outcomes: seq<Outcome>, quotes: seq<Quote>, c: Context, p: Policy, s: State) {
    if outcomes == [] || quotes == [] then outcomes == [] && quotes == []
    else
      var o := outcomes[0];
      && OutcomeOk(u, o) && o.quote == quotes[0] && o.context == c && o.policy == p && o.before == s
      && Chained(u, outcomes[1..], quotes[1..], c, p, o.after)
  }

  lemma {:induction false} ChainedIffAllocated(u: Arithmetic, outcomes: seq<Outcome>, quotes: seq<Quote>,
                                               c: Context, p: Policy, s: State)
    ensures Chained(u, outcomes, quotes, c, p, s) <==> Allocate(u, quotes, c, p, s) == Returned(outcomes)
  {
    if outcomes == [] || quotes == [] {
      if quotes != [] && Allocate(u, quotes, c, p, s).Returned? {
        assert Allocate(u, quotes, c, p, s).value != [];
      }
    } else {
      var o := outcomes[0];
      OutcomeOkIffMade(u, o);
      ChainedIffAllocated(u, outcomes[1..], quotes[1..], c, p, o.after);
      assert outcomes == [o] + outcomes[1..];
      if Allocate(u, quotes, c, p, s) == Returned(outcomes) {
        var made := MakeOutcome(u, quotes[0], c, p, s);
        assert made == Returned(o);
        MadeFrom(u, quotes[0], c, p, s);
      }
    }
  }

  lemma MadeFrom(u: Arithmetic, q: Quote, c: Context, p: Policy, s: State)
    requires MakeOutcome(u, q, c, p, s).Returned?
    ensures var o := MakeOutcome(u, q, c, p, s).value;
            OutcomeOk(u, o) && o.quote == q && o.context == c && o.policy == p && o.before == s
  {
  }

  /** The loop over outcomes and candidates, side by side. */
  method VerifyChain(u: Arithmetic, outcomes: seq<Outcome>, quotes: seq<Quote>, c: Context, p: Policy, s: State)
    returns (ok: bool)
    requires |outcomes| == |quotes|
    ensures ok == Chained(u, outcomes, quotes, c, p, s)
  {
    var expected, i := s, 0;
    assert outcomes[0..] == outcomes && quotes[0..] == quotes;
    ok := true;
    while i < |outcomes|
      invariant i <= |outcomes| && ok
      invariant Chained(u, outcomes[i..], quotes[i..], c, p, expected) == Chained(u, outcomes, quotes, c, p, s)
      invariant expected == FinalState(s, outcomes[..i])
    {
      var o := outcomes[i];
      assert outcomes[i..][1..] == outcomes[i + 1..] && quotes[i..][1..] == quotes[i + 1..];
      assert outcomes[i..][0] == o && quotes[i..][0] == quotes[i];
      if !OutcomeOk(u, o) || o.quote != quotes[i] || o.context != c || o.policy != p || o.before != expected {
        return false;
      }
      expected := o.after;
      i := i + 1;
    }
  }

  /** What the verifier checks is what the assembler computes. */
  lemma AssembledIff(u: Arithmetic, b: Batch)
    ensures Assembled(u, b.gates, b.context, b.policy) == Returned(b)
       <==> && ContextOk(b.context) && PolicyOk(b.policy) && Timely(b.gates, b.context, b.policy)
            && b.vetoes == Vetoes(b.gates.quotes) && |b.outcomes| == |Passes(b.gates.quotes)|
            && b.initial == InitialState(b.context)
            && Chained(u, b.outcomes, Passes(b.gates.quotes), b.context, b.policy, b.initial)
            && b.final == FinalState(b.initial, b.outcomes)
            && b.boughtCount == |Bought(b.outcomes)| && b.boughtCount + b.vetoCount == |b.outcomes|
  {
    var passes := Passes(b.gates.quotes);
    ChainedIffAllocated(u, b.outcomes, passes, b.context, b.policy, InitialState(b.context));
    AllocatedLength(u, passes, b.context, b.policy, InitialState(b.context));
    SelectAtMost(b.outcomes, (o: Outcome) => o.bought);
  }

  /** The batch verifier accepts a batch exactly when it is the one the assembler computes
      from the same quotes, context and policy. */
  method VerifyBatch(u: Arithmetic, b: Batch) returns (ok: bool)
    ensures ok <==> Assembled(u, b.gates, b.context, b.policy) == Returned(b)
  {
    AssembledIff(u, b);
    ok := ContextOk(b.context) && PolicyOk(b.policy) && Timely(b.gates, b.context, b.policy);
    var passes := Passes(b.gates.quotes);
    ok := ok && b.vetoes == Vetoes(b.gates.quotes) && |b.outcomes| == |passes| && b.initial == InitialState(b.context);
    if ok {
      ok := VerifyChain(u, b.outcomes, passes, b.context, b.policy, b.initial);
      var bought := |Bought(b.outcomes)|;
      ok := ok && b.final == FinalState(b.initial, b.outcomes)
            && b.boughtCount == bought && b.vetoCount == |b.outcomes| - bought;
    }
  }

  lemma {:induction false} AllocatedLength(u: Arithmetic, quotes: seq<Quote>, c: Context, p: Policy, s: State)
    ensures Allocate(u, quotes, c, p, s).Returned? ==> |Allocate(u, quotes, c, p, s).value| == |quotes|
  {
    if quotes != [] && MakeOutcome(u, quotes[0], c, p, s).Returned? {
      AllocatedLength(u, quotes[1..], c, p, MakeOutcome(u, quotes[0], c, p, s).value.after);
    }
  }

  // ---------------------------------------------------------------- every run is safe

  function TotalOf(outcomes: seq<Outcome>, amount: Outcome -> real): real {
    if outcomes == [] then 0.0 else amount(outcomes[0]) + TotalOf(outcomes[1..], amount)
  }

  /** The amounts of a run from one state to another are conserved, and cash lasts. */
  ghost predicate AmountsConserved(s: State, t: State, outcomes: seq<Outcome>) {
    && t.cash == s.cash - TotalOf(outcomes, (o: Outcome) => o.notional + o.cost) && t.cash >= 0.0
    && t.gross == s.gross + TotalOf(outcomes, (o: Outcome) => o.notional)
    && t.risk == s.risk + TotalOf(outcomes, (o: Outcome) => o.loss)
  }

  /** The limits on exposure and risk, which beyond some excess only a portfolio already
      over them exceeds. */
  ghost predicate CapsKept(s: State, t: State, c: Context, p: Policy, excess: real) {
    t.gross <= Max(s.gross, ExposureLimit(c, p)) + excess && t.risk <= Max(s.risk, RiskLimit(c, p)) + excess
  }

  /** The positions of a run: one new key per purchase, within both position limits. */
  ghost predicate PositionsSafe(s: State, t: State, outcomes: seq<Outcome>, c: Context, p: Policy) {
    && Canonical(t.keys) && |t.keys| == |s.keys| + |Bought(outcomes)|
    && (Bought(outcomes) != [] ==>
          |t.keys| <= p.maximumOpen && |t.keys| - c.portfolio.openPositions <= p.maximumNew)
    && (forall k :: k in t.keys <==> k in s.keys || exists o :: o in Bought(outcomes) && o.quote.listing == k)
  }

  /** Over any candidates and in any arithmetic, rounded or not: amounts are conserved, cash
      lasts, and both position limits hold. */
  lemma {:induction false} RunIsSafe(u: Arithmetic, outcomes: seq<Outcome>, quotes: seq<Quote>, c: Context, p: Policy, s: State)
    requires StateOk(s) && Chained(u, outcomes, quotes, c, p, s)
    ensures AmountsConserved(s, FinalState(s, outcomes), outcomes)
    ensures PositionsSafe(s, FinalState(s, outcomes), outcomes, c, p)
  {
    if outcomes != [] {
      var o := outcomes[0];
      OutcomeMoves(u, o);
      RunIsSafe(u, outcomes[1..], quotes[1..], c, p, o.after);
      assert FinalState(s, outcomes) == FinalState(o.after, outcomes[1..]);
      PositionsStep(s, FinalState(s, outcomes), outcomes, c, p);
    }
  }

  /** What rounding can carry a run over its limits: the slack once per purchase. */
  function Excess(slack: real, outcomes: seq<Outcome>): real {
    if outcomes == [] then 0.0 else (if outcomes[0].bought then slack else 0.0) + Excess(slack, outcomes[1..])
  }

  /** The exposure and risk limits hold up to the rounding of each purchase. */
  lemma {:induction false} RunKeepsCaps(u: Arithmetic, slack: real, outcomes: seq<Outcome>, quotes: seq<Quote>,
                                        c: Context, p: Policy, s: State)
    requires Within(u, slack) && slack >= 0.0 && Chained(u, outcomes, quotes, c, p, s)
    ensures CapsKept(s, FinalState(s, outcomes), c, p, Excess(slack, outcomes))
  {
    if outcomes != [] {
      var o := outcomes[0];
      StateIsMoved(u, o);
      if o.bought {
        PurchaseWithin(u, slack, o);
      }
      RunKeepsCaps(u, slack, outcomes[1..], quotes[1..], c, p, o.after);
      assert FinalState(s, outcomes) == FinalState(o.after, outcomes[1..]);
    }
  }

  lemma {:induction false} NoExcess(outcomes: seq<Outcome>)
    ensures Excess(0.0, outcomes) == 0.0
  {
    if outcomes != [] {
      NoExcess(outcomes[1..]);
    }
  }

  lemma PositionsStep(s: State, t: State, outcomes: seq<Outcome>, c: Context, p: Policy)
    requires outcomes != [] && outcomes[0].before == s && outcomes[0].context == c && outcomes[0].policy == p
    requires StepMoves(outcomes[0]) && PositionsSafe(outcomes[0].after, t, outcomes[1..], c, p)
    ensures PositionsSafe(s, t, outcomes, c, p)
  {
    var o, rest := outcomes[0], outcomes[1..];
    assert Bought(outcomes) == (if o.bought then [o] else []) + Bought(rest);
    forall k
      ensures k in t.keys <==> k in s.keys || exists x :: x in Bought(outcomes) && x.quote.listing == k
    {
      if o.bought {
        assert o in Bought(outcomes);
      }
    }
  }

  lemma StepTightens(u: Arithmetic, o: Outcome)
    requires OutcomeOk(u, o)
    ensures Tighter(o.before, o.after)
  {
    StateIsMoved(u, o);
    if o.bought {
      PositionIsSafe(u, o);
    }
  }

  /** Along a run the state only tightens. */
  lemma {:induction false} RunTightens(u: Arithmetic, outcomes: seq<Outcome>, quotes: seq<Quote>, c: Context, p: Policy,
                                       s: State)
    requires Chained(u, outcomes, quotes, c, p, s)
    ensures Tighter(s, FinalState(s, outcomes))
  {
    if outcomes != [] {
      StepTightens(u, outcomes[0]);
      RunTightens(u, outcomes[1..], quotes[1..], c, p, outcomes[0].after);
      assert FinalState(s, outcomes) == FinalState(outcomes[0].after, outcomes[1..]);
    }
  }

  /** No candidate would be treated better by coming later in a run: no larger quantity, no
      fewer vetoes, for every monotone rounding and so for exact arithmetic. */
  lemma ComingLaterIsNoBetter(u: Arithmetic, outcomes: seq<Outcome>, quotes: seq<Quote>, c: Context, p: Policy,
                              s: State, q: Quote)
    requires (Monotone(u) || Exact(u)) && Chained(u, outcomes, quotes, c, p, s) && Canonical(s.keys)
    requires Computable(q) && q.reference.value > 0.0 && q.costBuffer >= 0.0
    ensures FeasibleFor(u, q, c, p, FinalState(s, outcomes)) <= FeasibleFor(u, q, c, p, s)
    ensures ReasonsOf(u, q, c, p, s) <= ReasonsOf(u, q, c, p, FinalState(s, outcomes))
  {
    if Exact(u) {
      ExactIsMonotone(u);
    }
    RunTightens(u, outcomes, quotes, c, p, s);
    LaterNeverLoosens(u, q, c, p, s, FinalState(s, outcomes));
  }

  // ---------------------------------------------------------------- the decision

  /** `assemble_promoted_operational_decision`: the one allocated outcome, or none; more
      than one is an error. */
  function Decide(b: Batch): Result<Option<Outcome>> {
    var bought := Bought(b.outcomes);
    if |bought| > 1 then Raised else Returned(if bought == [] then None else Some(bought[0]))
  }

  /** Whatever the arithmetic, a run opens at most the policy's new positions per run, so
      with a limit of one the decision step never meets two allocations. */
  lemma LimitOneDecides(u: Arithmetic, b: Batch)
    requires Assembled(u, b.gates, b.context, b.policy) == Returned(b)
    ensures |Bought(b.outcomes)| <= b.policy.maximumNew
    ensures b.policy.maximumNew == 1 ==> Decide(b).Returned?
    ensures AmountsConserved(b.initial, b.final, b.outcomes)
    ensures PositionsSafe(b.initial, b.final, b.outcomes, b.context, b.policy)
    ensures forall slack :: slack >= 0.0 && Within(u, slack) ==>
              CapsKept(b.initial, b.final, b.context, b.policy, Excess(slack, b.outcomes))
    ensures Exact(u) ==> CapsKept(b.initial, b.final, b.context, b.policy, 0.0)
  {
    var passes := Passes(b.gates.quotes);
    ChainedIffAllocated(u, b.outcomes, passes, b.context, b.policy, b.initial);
    RunIsSafe(u, b.outcomes, passes, b.context, b.policy, b.initial);
    forall slack | slack >= 0.0 && Within(u, slack)
      ensures CapsKept(b.initial, b.final, b.context, b.policy, Excess(slack, b.outcomes))
    {
      RunKeepsCaps(u, slack, b.outcomes, passes, b.context, b.policy, b.initial);
    }
    if Exact(u) {
      ExactIsWithin(u);
      NoExcess(b.outcomes);
    }
  }
}
