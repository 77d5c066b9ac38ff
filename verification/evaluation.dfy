/**
 The selection logic of the philosophical evaluation printed after each
 decision: a three-way utilitarian verdict on the numbers and a deontological
 comment chosen by scenario kind. Only which text is selected is modelled.
 */
module Evaluation {
  import opened Wrappers
  import opened Scenarios

  /** The three act-utilitarian remarks. */
  datatype Verdict = MoreSaved | EqualTotals | FewerSaved

  /** The four deontological remarks, one per known scenario kind. */
  datatype Stance = UsesPersonAsMeans | RedirectsHarm | PassengerAsMeans | CausingVersusAllowing

  datatype Evaluation = Evaluation(verdict: Verdict, stance: Option<Stance>)

  function UtilitarianVerdict(saved: int, killed: int): (v: Verdict)
    ensures v == MoreSaved <==> saved > killed
    ensures v == EqualTotals <==> saved == killed
    ensures v == FewerSaved <==> saved < killed
  {
    if saved > killed then MoreSaved
    else if saved == killed then EqualTotals
    else FewerSaved
  }

  /** The scenario kind each remark is written for. */
  function KindOf(st: Stance): string {
    match st
    case UsesPersonAsMeans => "footbridge"
    case RedirectsHarm => "switch"
    case PassengerAsMeans => "self-driving"
    case CausingVersusAllowing => "equal-1v1"
  }

  predicate IsKnownKind(kind: string) {
    kind in {"footbridge", "switch", "self-driving", "equal-1v1"}
  }

  /** The remark for a kind; a kind outside the four prints no remark. */
  function DeontologyStance(kind: string): (r: Option<Stance>)
    ensures r.Some? <==> IsKnownKind(kind)
    ensures r.Some? ==> KindOf(r.value) == kind
  {
    if kind == "footbridge" then Some(UsesPersonAsMeans)
    else if kind == "switch" then Some(RedirectsHarm)
    else if kind == "self-driving" then Some(PassengerAsMeans)
    else if kind == "equal-1v1" then Some(CausingVersusAllowing)
    else None
  }

  /** Each remark is selected by exactly its own kind, so distinct known kinds
      get distinct remarks. */
  lemma StanceRoundTrip(st: Stance)
    ensures DeontologyStance(KindOf(st)) == Some(st)
  {
  }

  /** The evaluation depends only on the numbers and the kind (the decision
      passed alongside them is not consulted). */
  function EvaluateChoice(outcome: Outcome, kind: string): (e: Evaluation)
    ensures e.verdict == MoreSaved <==> outcome.saved > outcome.killed
    ensures e.verdict == EqualTotals <==> outcome.saved == outcome.killed
    ensures e.verdict == FewerSaved <==> outcome.saved < outcome.killed
    ensures e.stance.Some? <==> IsKnownKind(kind)
    ensures e.stance.Some? ==> KindOf(e.stance.value) == kind
  {
    Evaluation(UtilitarianVerdict(outcome.saved, outcome.killed), DeontologyStance(kind))
  }

  /** Over the fixed scenarios, doing nothing always saves fewer than it kills,
      and intervening saves more except in the one-versus-one case, where the
      totals tie. */
  lemma CatalogueVerdicts(i: nat)
    requires i < |Catalogue|
    ensures EvaluateChoice(Resolve(Catalogue[i], Abstain), Catalogue[i].kind).verdict == FewerSaved
    ensures EvaluateChoice(Resolve(Catalogue[i], Intervene), Catalogue[i].kind).verdict
            == (if Catalogue[i].kind == "equal-1v1" then EqualTotals else MoreSaved)
    ensures EvaluateChoice(Resolve(Catalogue[i], Intervene), Catalogue[i].kind).stance.Some?
  {
  }

  /** The switch and footbridge cases have identical numbers yet draw different
      deontological remarks: the totals alone do not decide the judgment. */
  lemma SameNumbersDifferentJudgment(d: Decision)
    ensures Resolve(Catalogue[0], d) == Resolve(Catalogue[1], d)
    ensures EvaluateChoice(Resolve(Catalogue[0], d), Catalogue[0].kind).verdict
            == EvaluateChoice(Resolve(Catalogue[1], d), Catalogue[1].kind).verdict
    ensures EvaluateChoice(Resolve(Catalogue[0], d), Catalogue[0].kind).stance
            != EvaluateChoice(Resolve(Catalogue[1], d), Catalogue[1].kind).stance
  {
  }
}
