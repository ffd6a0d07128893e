/** The research pipeline from validated inputs to its one decision: candidates, ranking
    check, research and risk over a prefix of the ranking, selection, and the final
    integrity check that can still fail the run. */
module PipelineSelection {
  import opened Wrappers
  import opened StableSort
  import opened StringOrder

  /** A candidate; two candidates with the same content identity are the same value. */
  datatype Candidate = Candidate(symbol: string, lineage: string, evidence: set<string>, content: string)

  datatype Ranked = Ranked(candidate: Candidate, score: real)

  datatype Assessment = Assessment(lineage: string, evidence: set<string>, text: string)

  datatype Action = Buy | NoTrade

  datatype Decision = Decision(action: Action, symbol: string, expectedR: real, reasons: seq<string>)

  datatype Build = Ineligible | Built(candidate: Candidate) | BuildFails

  datatype Evaluation = Approves(decision: Decision) | Declines | RiskFails

  /** What the injected services answer; `None` is a call that raises or answers with the
      wrong type or version. */
  datatype Services<!I> = Services(
    inputsValid: bool, build: I -> Build, rank: seq<Candidate> -> Option<seq<Ranked>>,
    assess: Candidate -> Option<Assessment>, evaluate: (Candidate, Assessment, nat) -> Evaluation,
    researchLimit: nat, inputsUnchanged: bool)

  datatype Status = Complete | Failed

  datatype Outcome = Outcome(status: Status, decision: Decision, ranked: seq<Ranked>, research: seq<Assessment>)

  const NO_TRADE: Decision := Decision(NoTrade, "", 0.0, ["no candidate passed every deterministic gate"])

  const FAILED: Outcome := Outcome(Failed, Decision(NoTrade, "", 0.0, ["run failed closed"]), [], [])

  // ---------------------------------------------------------------- the ranking check

  function CandidatesOf(ranked: seq<Ranked>): (cs: seq<Candidate>)
    ensures |cs| == |ranked| && forall i :: 0 <= i < |ranked| ==> cs[i] == ranked[i].candidate
  {
    if ranked == [] then [] else [ranked[0].candidate] + CandidatesOf(ranked[1..])
  }

  /** Every ranked candidate is expected, none twice, and there are as many as candidates. */
  predicate RankingAccepted(candidates: seq<Candidate>, ranked: seq<Ranked>) {
    && |ranked| == |candidates|
    && (forall i :: 0 <= i < |ranked| ==> ranked[i].candidate in candidates)
    && NoRepeats(CandidatesOf(ranked))
  }

  /** A ranking is accepted exactly when the candidates are all different and it is a
      permutation of them. */
  lemma AcceptedIffPermutation(candidates: seq<Candidate>, ranked: seq<Ranked>)
    ensures RankingAccepted(candidates, ranked)
       <==> NoRepeats(candidates) && multiset(CandidatesOf(ranked)) == multiset(candidates)
  {
    var cs := CandidatesOf(ranked);
    if RankingAccepted(candidates, ranked) {
      AllAmong(cs, candidates);
      NoRepeatsPermuted(cs, candidates);
    }
    if NoRepeats(candidates) && multiset(cs) == multiset(candidates) {
      NoRepeatsPermuted(candidates, cs);
      assert |multiset(cs)| == |multiset(candidates)|;
      forall i | 0 <= i < |ranked|
        ensures ranked[i].candidate in candidates
      {
        assert cs[i] in multiset(candidates);
      }
    }
  }

  /** The checking loop: expected identities, identities seen. */
  method CheckRanking(candidates: seq<Candidate>, ranked: seq<Ranked>) returns (ok: bool)
    ensures ok == RankingAccepted(candidates, ranked)
  {
    if |ranked| != |candidates| {
      return false;
    }
    var expected := set c | c in candidates;
    var seen: set<Candidate> := {};
    for i := 0 to |ranked|
      invariant forall k :: 0 <= k < i ==> ranked[k].candidate in candidates && ranked[k].candidate in seen
      invariant forall c :: c in seen ==> exists k :: 0 <= k < i && ranked[k].candidate == c
      invariant forall j, k :: 0 <= j < k < i ==> ranked[j].candidate != ranked[k].candidate
    {
      var c := ranked[i].candidate;
      if c !in expected || c in seen {
        if c in seen {
          ghost var k :| 0 <= k < i && ranked[k].candidate == c;
          assert CandidatesOf(ranked)[k] == CandidatesOf(ranked)[i];
        }
        return false;
      }
      seen := seen + {c};
    }
    ok := true;
  }

  // ---------------------------------------------------------------- selection

  datatype Approved = Approved(expectedR: real, rank: nat, decision: Decision)

  /** The sort key: expected R descending, then rank, then symbol. */
  predicate Before(a: Approved, b: Approved) {
    a.expectedR > b.expectedR
    || (a.expectedR == b.expectedR
        && (a.rank < b.rank || (a.rank == b.rank && StrLe(a.decision.symbol, b.decision.symbol))))
  }

  lemma BeforeIsPreorder()
    ensures Preorder(Before)
  {
    StrLeIsTotalOrder();
  }

  /** `best` beats every other approval: more expected R, or as much and ranked earlier. */
  ghost predicate Best(best: Approved, approved: seq<Approved>) {
    best in approved && forall a :: a in approved && a != best ==>
      best.expectedR > a.expectedR || (best.expectedR == a.expectedR && best.rank < a.rank)
  }

  /** The one approval that beats every other. */
  ghost predicate OnlyBest(best: Approved, approved: seq<Approved>) {
    forall a :: Best(a, approved) <==> a == best
  }

  ghost predicate RanksDiffer(approved: seq<Approved>) {
    forall i, j :: 0 <= i < j < |approved| ==> approved[i].rank < approved[j].rank
  }

  /** The first of the sorted approvals is the unique best. */
  lemma FirstIsBest(approved: seq<Approved>)
    requires approved != [] && RanksDiffer(approved)
    ensures Sort(approved, Before) != [] && OnlyBest(Sort(approved, Before)[0], approved)
  {
    var sorted := Sort(approved, Before);
    BeforeIsPreorder();
    SortPermutes(approved, Before);
    SortSorted(approved, Before);
    var best := sorted[0];
    assert best in multiset(sorted);
    forall a | a in approved && a != best
      ensures best.expectedR > a.expectedR || (best.expectedR == a.expectedR && best.rank < a.rank)
    {
      assert a in multiset(approved);
      HeadIsLeast(sorted, Before, a);
      var i :| 0 <= i < |approved| && approved[i] == a;
      var j :| 0 <= j < |approved| && approved[j] == best;
    }
  }

  // ---------------------------------------------------------------- the run

  /** The candidates of the eligible instruments, in order, unless one cannot be built. */
  function CandidatesFrom<I>(x: Services<I>, instruments: seq<I>): Option<seq<Candidate>> {
    if instruments == [] then Some([])
    else
      var rest := CandidatesFrom(x, instruments[1..]);
      match x.build(instruments[0])
      case Ineligible => rest
      case BuildFails => None
      case Built(c) => if rest.Some? then Some([c] + rest.value) else None
  }

  /** The research assessment of a candidate, when it is the candidate's own and cites only
      its evidence. */
  function AssessmentOf<I>(x: Services<I>, c: Candidate): Option<Assessment> {
    match x.assess(c)
    case Some(a) => if a.lineage == c.lineage && a.evidence <= c.evidence then Some(a) else None
    case None => None
  }

  datatype Researched = Researched(assessments: seq<Assessment>, approved: seq<Approved>)

  /** Research and risk over a prefix of the ranking; any error fails the run. */
  function ResearchFirst<I>(x: Services<I>, ranked: seq<Ranked>, n: nat): Option<Researched>
    requires n <= |ranked|
  {
    if n == 0 then Some(Researched([], []))
    else
      var before, c := ResearchFirst(x, ranked, n - 1), ranked[n - 1].candidate;
      var a := AssessmentOf(x, c);
      if before.None? || a.None? then None
      else
        match x.evaluate(c, a.value, n)
        case RiskFails => None
        case Declines => Some(Researched(before.value.assessments + [a.value], before.value.approved))
        case Approves(d) =>
          Some(Researched(before.value.assessments + [a.value], before.value.approved + [Approved(d.expectedR, n, d)]))
  }

  lemma {:induction false} ApprovedRanks<I>(x: Services<I>, ranked: seq<Ranked>, n: nat)
    requires n <= |ranked| && ResearchFirst(x, ranked, n).Some?
    ensures RanksDiffer(ResearchFirst(x, ranked, n).value.approved)
    ensures forall a :: a in ResearchFirst(x, ranked, n).value.approved ==>
              1 <= a.rank <= n && a.expectedR == a.decision.expectedR
              && AssessmentOf(x, ranked[a.rank - 1].candidate).Some?
              && x.evaluate(ranked[a.rank - 1].candidate, AssessmentOf(x, ranked[a.rank - 1].candidate).value, a.rank)
                 == Approves(a.decision)
  {
    if n > 0 {
      ApprovedRanks(x, ranked, n - 1);
      var before := ResearchFirst(x, ranked, n - 1).value.approved;
      forall i | 0 <= i < |before|
        ensures before[i].rank <= n - 1
      {
        assert before[i] in before;
      }
    }
  }

  function PrefixLength<I>(x: Services<I>, ranked: seq<Ranked>): nat {
    if |ranked| <= x.researchLimit then |ranked| else x.researchLimit
  }

  /** Exactly when a run completes: every stage before and the final integrity check pass. */
  ghost predicate Completes<I>(x: Services<I>, instruments: seq<I>) {
    && x.inputsValid && x.inputsUnchanged
    && CandidatesFrom(x, instruments).Some?
    && var candidates := CandidatesFrom(x, instruments).value;
       x.rank(candidates).Some? && RankingAccepted(candidates, x.rank(candidates).value)
       && ResearchFirst(x, x.rank(candidates).value, PrefixLength(x, x.rank(candidates).value)).Some?
  }

  method BuildCandidates<I>(x: Services<I>, instruments: seq<I>) returns (r: Option<seq<Candidate>>)
    ensures r == CandidatesFrom(x, instruments)
  {
    var candidates: seq<Candidate> := [];
    var left := instruments;
    assert CandidatesFrom(x, left).Some? ==> [] + CandidatesFrom(x, left).value == CandidatesFrom(x, left).value;
    while left != []
      invariant CandidatesFrom(x, instruments)
             == match CandidatesFrom(x, left) case None => None case Some(rest) => Some(candidates + rest)
      decreases |left|
    {
      match x.build(left[0]) {
        case Ineligible =>
        case BuildFails => return None;
        case Built(c) =>
          assert CandidatesFrom(x, left[1..]).Some? ==>
            candidates + ([c] + CandidatesFrom(x, left[1..]).value) == (candidates + [c]) + CandidatesFrom(x, left[1..]).value;
          candidates := candidates + [c];
      }
      left := left[1..];
    }
    assert candidates + [] == candidates;
    r := Some(candidates);
  }

  method Research<I>(x: Services<I>, ranked: seq<Ranked>) returns (r: Option<Researched>)
    ensures r == ResearchFirst(x, ranked, PrefixLength(x, ranked))
  {
    var assessments: seq<Assessment>, approved: seq<Approved> := [], [];
    var limit := PrefixLength(x, ranked);
    var rank := 0;
    while rank < limit
      invariant rank <= limit
      invariant ResearchFirst(x, ranked, rank) == Some(Researched(assessments, approved))
    {
      rank := rank + 1;
      var c := ranked[rank - 1].candidate;
      var a := AssessmentOf(x, c);
      if a.None? {
        FailureStays(x, ranked, rank, limit);
        return None;
      }
      assessments := assessments + [a.value];
      match x.evaluate(c, a.value, rank)
      case RiskFails =>
        FailureStays(x, ranked, rank, limit);
        return None;
      case Declines =>
      case Approves(d) => approved := approved + [Approved(d.expectedR, rank, d)];
    }
    r := Some(Researched(assessments, approved));
  }

  lemma {:induction false} FailureStays<I>(x: Services<I>, ranked: seq<Ranked>, n: nat, m: nat)
    requires n <= m <= |ranked| && ResearchFirst(x, ranked, n).None?
    ensures ResearchFirst(x, ranked, m).None?
    decreases m
  {
    if n < m {
      FailureStays(x, ranked, n, m - 1);
    }
  }

  // ---------------------------------------------------------------- the run, on the services alone

  /** The instruments of which a candidate is built, in their order. */
  function Eligible<I>(x: Services<I>, instruments: seq<I>): seq<I> {
    Select(instruments, (i: I) => x.build(i).Built?)
  }

  /** No instrument fails, and these are the candidates built of the others that are
      eligible, in order. */
  ghost predicate CandidatesBuilt<I>(x: Services<I>, instruments: seq<I>, candidates: seq<Candidate>) {
    && (forall k :: 0 <= k < |instruments| ==> !x.build(instruments[k]).BuildFails?)
    && |candidates| == |Eligible(x, instruments)|
    && forall i :: 0 <= i < |candidates| ==> x.build(Eligible(x, instruments)[i]) == Built(candidates[i])
  }

  /** A rank of the researched prefix. */
  predicate InPrefix<I>(x: Services<I>, ranked: seq<Ranked>, n: nat) {
    1 <= n <= |ranked| && n <= x.researchLimit
  }

  /** What research answers at a rank: an assessment of that candidate that cites nothing
      but its evidence. */
  predicate ResearchedAt<I>(x: Services<I>, ranked: seq<Ranked>, n: nat, a: Assessment) {
    && InPrefix(x, ranked, n) && x.assess(ranked[n - 1].candidate) == Some(a)
    && a.lineage == ranked[n - 1].candidate.lineage && a.evidence <= ranked[n - 1].candidate.evidence
  }

  /** The list holds, at its rank's place, what research answers there. */
  predicate AssessedAt<I>(x: Services<I>, ranked: seq<Ranked>, assessments: seq<Assessment>, n: nat) {
    1 <= n <= |assessments| && ResearchedAt(x, ranked, n, assessments[n - 1])
  }

  /** What the risk engine decides at a rank, when it approves. */
  ghost predicate ApprovedAt<I>(x: Services<I>, ranked: seq<Ranked>, n: nat, d: Decision) {
    exists a :: ResearchedAt(x, ranked, n, a) && x.evaluate(ranked[n - 1].candidate, a, n) == Approves(d)
  }

  /** The approval with the most expected R, of those the one ranked first. */
  ghost predicate ChosenAt<I>(x: Services<I>, ranked: seq<Ranked>, n: nat, d: Decision) {
    && ApprovedAt(x, ranked, n, d)
    && forall m, e :: ApprovedAt(x, ranked, m, e) ==>
         d.expectedR > e.expectedR || (d.expectedR == e.expectedR && n <= m)
  }

  ghost predicate Passes<I>(x: Services<I>, ranked: seq<Ranked>, n: nat) {
    exists a :: ResearchedAt(x, ranked, n, a) && x.evaluate(ranked[n - 1].candidate, a, n) != RiskFails
  }

  /** Every stage passes over these candidates and this ranking of them. */
  ghost predicate RunsThrough<I>(x: Services<I>, instruments: seq<I>, candidates: seq<Candidate>, ranked: seq<Ranked>) {
    && x.inputsValid && CandidatesBuilt(x, instruments, candidates)
    && x.rank(candidates) == Some(ranked)
    && NoRepeats(candidates) && multiset(CandidatesOf(ranked)) == multiset(candidates)
    && (forall n :: InPrefix(x, ranked, n) ==> Passes(x, ranked, n))
    && x.inputsUnchanged
  }

  /** What a completed run returns. */
  ghost predicate Reports<I>(x: Services<I>, ranked: seq<Ranked>, r: Outcome) {
    && r.ranked == ranked
    && |r.research| == (if |ranked| <= x.researchLimit then |ranked| else x.researchLimit)
    && (forall n: nat :: InPrefix(x, ranked, n) ==> AssessedAt(x, ranked, r.research, n))
    && (if exists n, d :: ApprovedAt(x, ranked, n, d) then exists n :: ChosenAt(x, ranked, n, r.decision)
        else r.decision == NO_TRADE)
  }

  /** The candidates come out exactly when no instrument fails, and are then the built ones
      in order. */
  lemma {:induction false} CandidatesAre<I>(x: Services<I>, instruments: seq<I>)
    ensures CandidatesFrom(x, instruments).Some? <==>
              forall k :: 0 <= k < |instruments| ==> !x.build(instruments[k]).BuildFails?
    ensures CandidatesFrom(x, instruments).Some? ==>
              CandidatesBuilt(x, instruments, CandidatesFrom(x, instruments).value)
  {
    if instruments != [] {
      var rest := instruments[1..];
      CandidatesAre(x, rest);
      assert forall k :: 0 <= k < |rest| ==> rest[k] == instruments[k + 1];
      assert Eligible(x, instruments)
          == (if x.build(instruments[0]).Built? then [instruments[0]] else []) + Eligible(x, rest);
    }
  }

  /** There is only one such list. */
  lemma BuiltIsUnique<I>(x: Services<I>, instruments: seq<I>, candidates: seq<Candidate>)
    requires CandidatesBuilt(x, instruments, candidates)
    ensures CandidatesFrom(x, instruments) == Some(candidates)
  {
    CandidatesAre(x, instruments);
    var all := CandidatesFrom(x, instruments).value;
    forall i | 0 <= i < |all|
      ensures all[i] == candidates[i]
    {
      assert Built(all[i]) == Built(candidates[i]);
    }
    assert all == candidates;
  }

  /** The approvals hold this rank's decision. */
  predicate EntryAt(approved: seq<Approved>, n: nat, d: Decision) {
    Approved(d.expectedR, n, d) in approved
  }

  /** Research over a prefix succeeds exactly when every rank of it passes; it then holds
      every rank's assessment, and exactly the approvals there are. */
  lemma {:induction false} ResearchIs<I>(x: Services<I>, ranked: seq<Ranked>, n: nat)
    requires n <= |ranked| && n <= x.researchLimit
    ensures ResearchFirst(x, ranked, n).Some? <==> forall m: nat :: 1 <= m <= n ==> Passes(x, ranked, m)
    ensures ResearchFirst(x, ranked, n).Some? ==>
              var done := ResearchFirst(x, ranked, n).value;
              && |done.assessments| == n
              && (forall m: nat :: 1 <= m <= n ==> AssessedAt(x, ranked, done.assessments, m))
              && (forall m: nat, d :: m <= n && ApprovedAt(x, ranked, m, d) ==> EntryAt(done.approved, m, d))
              && (forall e :: e in done.approved ==>
                    1 <= e.rank <= n && e.expectedR == e.decision.expectedR && ApprovedAt(x, ranked, e.rank, e.decision))
  {
    if n > 0 {
      ResearchIs(x, ranked, n - 1);
      var c := ranked[n - 1].candidate;
      var before, a := ResearchFirst(x, ranked, n - 1), AssessmentOf(x, c);
      assert a.Some? ==> ResearchedAt(x, ranked, n, a.value);
      assert Passes(x, ranked, n) <==> a.Some? && x.evaluate(c, a.value, n) != RiskFails;
      if ResearchFirst(x, ranked, n).Some? {
        var done := ResearchFirst(x, ranked, n).value;
        forall m: nat | 1 <= m <= n
          ensures AssessedAt(x, ranked, done.assessments, m) && Passes(x, ranked, m)
        {
          if m < n {
            assert AssessedAt(x, ranked, before.value.assessments, m);
          }
        }
        forall m: nat, d | m <= n && ApprovedAt(x, ranked, m, d)
          ensures EntryAt(done.approved, m, d)
        {
          if m < n {
            assert EntryAt(before.value.approved, m, d);
          }
        }
      }
    }
  }

  /** Every stage passes exactly when some candidates and some ranking run through. */
  lemma CompletesIff<I>(x: Services<I>, instruments: seq<I>)
    ensures Completes(x, instruments) <==> exists cs, ranked :: RunsThrough(x, instruments, cs, ranked)
  {
    CandidatesAre(x, instruments);
    if Completes(x, instruments) {
      var cs := CandidatesFrom(x, instruments).value;
      var ranked := x.rank(cs).value;
      AcceptedIffPermutation(cs, ranked);
      PrefixPasses(x, ranked);
      assert RunsThrough(x, instruments, cs, ranked);
    }
    if cs, ranked :| RunsThrough(x, instruments, cs, ranked) {
      BuiltIsUnique(x, instruments, cs);
      AcceptedIffPermutation(cs, ranked);
      PrefixPasses(x, ranked);
    }
  }

  lemma PrefixPasses<I>(x: Services<I>, ranked: seq<Ranked>)
    ensures ResearchFirst(x, ranked, PrefixLength(x, ranked)).Some?
       <==> forall n :: InPrefix(x, ranked, n) ==> Passes(x, ranked, n)
  {
    var limit := PrefixLength(x, ranked);
    ResearchIs(x, ranked, limit);
    assert forall n: nat :: InPrefix(x, ranked, n) <==> 1 <= n <= limit;
  }

  /** The best entry is the approval to choose. */
  lemma BestIsChosen<I>(x: Services<I>, ranked: seq<Ranked>, approved: seq<Approved>, best: Approved)
    requires Best(best, approved)
    requires forall n: nat, d :: ApprovedAt(x, ranked, n, d) ==> EntryAt(approved, n, d)
    requires forall e :: e in approved ==> e.expectedR == e.decision.expectedR && ApprovedAt(x, ranked, e.rank, e.decision)
    ensures ChosenAt(x, ranked, best.rank, best.decision)
  {
    forall m: nat, e | ApprovedAt(x, ranked, m, e)
      ensures best.expectedR > e.expectedR || (best.expectedR == e.expectedR && best.rank <= m)
    {
      assert EntryAt(approved, m, e);
      assert Approved(e.expectedR, m, e) in approved;
    }
  }

  /** What a completed run has found. */
  lemma ReportIs<I>(x: Services<I>, ranked: seq<Ranked>, done: Researched, r: Outcome)
    requires ResearchFirst(x, ranked, PrefixLength(x, ranked)) == Some(done)
    requires r.ranked == ranked && r.research == done.assessments
    requires if done.approved == [] then r.decision == NO_TRADE
             else exists best :: Best(best, done.approved) && r.decision == best.decision
    ensures Reports(x, ranked, r)
  {
    var limit := PrefixLength(x, ranked);
    ResearchIs(x, ranked, limit);
    forall n: nat, d | ApprovedAt(x, ranked, n, d)
      ensures EntryAt(done.approved, n, d)
    {
      var a :| ResearchedAt(x, ranked, n, a);
      assert n <= limit;
    }
    if done.approved == [] {
    } else {
      var best :| Best(best, done.approved) && r.decision == best.decision;
      BestIsChosen(x, ranked, done.approved, best);
    }
  }

  /** The whole run.  It completes exactly when every stage passes over the built candidates
      and a ranking that permutes them; a failed run carries no trade, no ranking and no
      research; a completed one reports its ranking, the assessment of every rank of the
      prefix, and the decision approved with the most expected R, earliest rank first, or
      no trade when no rank is approved. */
  method Run<I>(x: Services<I>, instruments: seq<I>) returns (r: Outcome)
    ensures r.status.Complete? <==> exists cs, ranked :: RunsThrough(x, instruments, cs, ranked)
    ensures r.status.Failed? ==> r.decision.action.NoTrade? && r.ranked == [] && r.research == []
    ensures r.status.Complete? ==>
              exists cs :: RunsThrough(x, instruments, cs, r.ranked) && Reports(x, r.ranked, r)
  {
    CompletesIff(x, instruments);
    r := FAILED;
    if x.inputsValid {
      var built := BuildCandidates(x, instruments);
      if built.Some? {
        r := RunCandidates(x, instruments, built.value);
      }
    }
  }

  /** From the candidates on: ranking, research and risk, selection, the last check of the
      inputs. */
  method RunCandidates<I>(x: Services<I>, ghost instruments: seq<I>, candidates: seq<Candidate>) returns (r: Outcome)
    requires x.inputsValid && CandidatesFrom(x, instruments) == Some(candidates)
    ensures r.status.Complete? == Completes(x, instruments)
    ensures r.status.Failed? ==> r == FAILED
    ensures r.status.Complete? ==> RunsThrough(x, instruments, candidates, r.ranked) && Reports(x, r.ranked, r)
  {
    r := FAILED;
    var ranking := x.rank(candidates);
    if ranking.Some? {
      var accepted := CheckRanking(candidates, ranking.value);
      if accepted {
        var researched := Research(x, ranking.value);
        if researched.Some? && x.inputsUnchanged {
          AcceptedIffPermutation(candidates, ranking.value);
          CandidatesAre(x, instruments);
          PrefixPasses(x, ranking.value);
          var decision := Decide(x, ranking.value, researched.value);
          r := Outcome(Complete, decision, ranking.value, researched.value.assessments);
          ReportIs(x, ranking.value, researched.value, r);
        }
      }
    }
  }

  /** The first of the sorted approvals. */
  method Decide<I>(ghost x: Services<I>, ghost ranked: seq<Ranked>, done: Researched) returns (decision: Decision)
    requires ResearchFirst(x, ranked, PrefixLength(x, ranked)) == Some(done)
    ensures if done.approved == [] then decision == NO_TRADE
            else exists best :: Best(best, done.approved) && decision == best.decision
  {
    decision := NO_TRADE;
    if done.approved != [] {
      ApprovedRanks(x, ranked, PrefixLength(x, ranked));
      FirstIsBest(done.approved);
      decision := Sort(done.approved, Before)[0].decision;
    }
  }
}
