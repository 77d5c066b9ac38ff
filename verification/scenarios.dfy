/**
 The fixed scenario records the session walks through, and how a decision
 selects one of a scenario's two outcomes.
 */
module Scenarios {

  /** One trolley vignette. `kind` is kept as the free-form string the script
      stores, since the evaluation also has to say what an unknown kind does. */
  datatype Scenario = Scenario(
    name: string,
    description: string,
    savedIfPull: int,
    killedIfPull: int,
    savedIfStay: int,
    killedIfStay: int,
    kind: string)

  /** "1" intervenes (pull / push / swerve), "2" lets events occur. */
  datatype Decision = Intervene | Abstain

  /** The lives saved and killed by one decision. */
  datatype Outcome = Outcome(saved: int, killed: int)

  /** The console answer that selects a decision. */
  function KeyOf(d: Decision): string {
    match d
    case Intervene => "1"
    case Abstain => "2"
  }

  /** The branch of the record the decision picks; the record itself is a
      value and is never changed. */
  function Resolve(scn: Scenario, d: Decision): (o: Outcome)
    ensures KeyOf(d) == "1" ==> o.saved == scn.savedIfPull && o.killed == scn.killedIfPull
    ensures KeyOf(d) != "1" ==> o.saved == scn.savedIfStay && o.killed == scn.killedIfStay
  {
    match d
    case Intervene => Outcome(scn.savedIfPull, scn.killedIfPull)
    case Abstain => Outcome(scn.savedIfStay, scn.killedIfStay)
  }

  /** The four scenarios, in the order they are presented. */
  const Catalogue: seq<Scenario> := [
    Scenario(
      "Classic Switch",
      "A trolley is heading toward 5 workers. Pulling a lever diverts it to a track with 1 worker.",
      5, 1, 0, 5, "switch"),
    Scenario(
      "Footbridge Push",
      "A trolley heads toward 5 people. You can push a person off a footbridge to stop it, killing them but saving the others.",
      5, 1, 0, 5, "footbridge"),
    Scenario(
      "Self-Driving Car Crash",
      "Your autonomous car must choose: stay straight and hit 2 pedestrians, or swerve and kill you instead.",
      2, 1, 0, 2, "self-driving"),
    Scenario(
      "Equal Numbers: Passenger vs. Pedestrian (1 vs 1)",
      "You can swerve to sacrifice the passenger to save 1 pedestrian, or do nothing and 1 pedestrian dies.",
      1, 1, 0, 1, "equal-1v1")
  ]

  /** The two answers are distinct and each names its own decision. */
  lemma KeyOfInjective(d: Decision, e: Decision)
    ensures KeyOf(d) == KeyOf(e) <==> d == e
  {
  }

  /** The fixed scenarios share one shape: doing nothing saves no one,
      intervening costs exactly one life and saves exactly those doing nothing
      would kill. */
  lemma CatalogueShape()
    ensures |Catalogue| == 4
    ensures forall i :: 0 <= i < |Catalogue| ==>
              && Catalogue[i].savedIfStay == 0
              && Catalogue[i].killedIfPull == 1
              && Catalogue[i].savedIfPull == Catalogue[i].killedIfStay
  {
  }
}
