/**
 The main loop: for each scenario in order, the decision prompt, the
 discomfort prompt and the "press ENTER" pause each read from the same input,
 the saved/killed totals grow by the chosen outcome, and a rating, when given,
 is appended to the discomfort log. The report at the end holds the totals
 and the most uncomfortable entry.
 */
module Session {
  import opened Wrappers
  import opened Scenarios
  import opened Text
  import opened Prompts
  import opened Summary

  /** What one pass of the loop settles for one scenario. */
  datatype Turn = Turn(name: string, decision: Decision, outcome: Outcome, rating: Rating)

  /** A turn belongs to its scenario: same name, the outcome of the branch
      taken, and a score (if any) in range. */
  predicate TurnFits(scn: Scenario, t: Turn) {
    && t.name == scn.name
    && t.outcome == Resolve(scn, t.decision)
    && (t.rating.Rated? ==> 1 <= t.rating.score <= 5)
  }

  /** One pass of the loop body from line `from`: decision, rating, then the
      pause, which takes one line whatever it says. */
  function PlayScenario(scn: Scenario, lines: seq<string>, from: nat): (r: Option<Read<Turn>>)
    ensures r.Some? ==> from < r.value.next <= |lines|
    ensures r.Some? ==> TurnFits(scn, r.value.value)
  {
    match ScenarioPrompt(scn, lines, from)
    case None => None
    case Some(p) =>
      match AskDiscomfort(lines, p.next)
      case None => None
      case Some(a) =>
        if a.next < |lines| then Some(Read(Turn(scn.name, p.decision, p.outcome, a.value), a.next + 1))
        else None
  }

  /** The pass in terms of its two prompts: when both return and a line is
      left for the pause, the turn holds their answers. */
  lemma PlayScenarioReads(scn: Scenario, lines: seq<string>, from: nat, p: Prompted, a: Read<Rating>)
    requires ScenarioPrompt(scn, lines, from) == Some(p)
    requires AskDiscomfort(lines, p.next) == Some(a)
    requires a.next < |lines|
    ensures PlayScenario(scn, lines, from) == Some(Read(Turn(scn.name, p.decision, p.outcome, a.value), a.next + 1))
  {
  }

  /** A pass on concrete input: a decision key after any rejected lines, then
      a rating after any rejected lines, then one more line for the pause
      gives the turn holding exactly that decision, its branch's outcome and
      that rating, and reading resumes after the pause line. */
  lemma PlayScenarioAt(scn: Scenario, lines: seq<string>, from: nat, k1: nat, d: Decision, k2: nat, rating: Rating)
    requires from <= k1 < k2 && k2 + 1 < |lines|
    requires forall i :: from <= i < k1 ==> ParseDecision(lines[i]).None?
    requires ParseDecision(lines[k1]) == Some(d)
    requires forall i :: k1 + 1 <= i < k2 ==> ParseRating(lines[i]).None?
    requires ParseRating(lines[k2]) == Some(rating)
    ensures PlayScenario(scn, lines, from) == Some(Read(Turn(scn.name, d, Resolve(scn, d), rating), k2 + 2))
  {
    FirstValidAt(lines, from, k1, d, ParseDecision);
    FirstValidAt(lines, k1 + 1, k2, rating, ParseRating);
    PlayScenarioReads(scn, lines, from, Prompted(d, Resolve(scn, d), k1 + 1), Read(rating, k2 + 1));
  }

  /** A pass fails exactly when the input ends first: no line is a decision
      key, or no later line is an acceptable rating, or no line is left for
      the pause. */
  lemma PlayScenarioNone(scn: Scenario, lines: seq<string>, from: nat)
    ensures PlayScenario(scn, lines, from).None? <==>
              || (forall i :: from <= i < |lines| ==> ParseDecision(lines[i]).None?)
              || (var k1 := ReadDecision(lines, from).value.next;
                  forall i :: k1 <= i < |lines| ==> ParseRating(lines[i]).None?)
              || AskDiscomfort(lines, ReadDecision(lines, from).value.next).value.next == |lines|
  {
  }

  /** One pass of the loop body, as a function of the scenario, the input
      and the line it starts reading at. The script's pass is PlayScenario;
      the loop and its lemmas only use what WellBehaved says of a pass. */
  type Pass = (Scenario, seq<string>, nat) -> Option<Read<Turn>>

  /** What a pass that completes gives: it read at least one line, no line
      past the end, and a turn that fits its scenario. */
  predicate Advances(scn: Scenario, lines: seq<string>, from: nat, r: Option<Read<Turn>>) {
    r.Some? ==> from < r.value.next <= |lines| && TurnFits(scn, r.value.value)
  }

  ghost predicate WellBehaved(pass: Pass) {
    forall scn, lines, from :: Advances(scn, lines, from, pass(scn, lines, from))
  }

  /** The script's pass is one. */
  lemma PlayScenarioWellBehaved()
    ensures WellBehaved(PlayScenario)
  {
  }

  /** All passes in order, each reading where the previous one stopped; `None`
      when the input ends first. */
  function PlayAll(pass: Pass, scns: seq<Scenario>, lines: seq<string>): (r: Option<Read<seq<Turn>>>)
    requires WellBehaved(pass)
    ensures r.Some? ==> |r.value.value| == |scns| && r.value.next <= |lines|
    ensures r.Some? ==> forall i :: 0 <= i < |scns| ==> TurnFits(scns[i], r.value.value[i])
    decreases |scns|
  {
    if |scns| == 0 then Some(Read([], 0))
    else
      match PlayAll(pass, scns[..|scns| - 1], lines)
      case None => None
      case Some(done) =>
        var r := pass(scns[|scns| - 1], lines, done.next);
        assert Advances(scns[|scns| - 1], lines, done.next, r);
        match r
        case None => None
        case Some(t) => Some(Read(done.value + [t.value], t.next))
  }

  /** The session over the first `i + 1` scenarios is the session over the
      first `i` followed by one more pass. */
  lemma PlayAllStep(pass: Pass, scns: seq<Scenario>, i: nat, lines: seq<string>)
    requires WellBehaved(pass)
    requires i < |scns|
    ensures PlayAll(pass, scns[..i + 1], lines)
            == match PlayAll(pass, scns[..i], lines)
               case None => None
               case Some(done) =>
                 match pass(scns[i], lines, done.next)
                 case None => None
                 case Some(t) => Some(Read(done.value + [t.value], t.next))
  {
    assert scns[..i + 1][..i] == scns[..i];
    assert scns[..i + 1][i] == scns[i];
  }

  /** A session that gets through all scenarios got through every prefix. */
  lemma {:induction false} PlayAllPrefix(pass: Pass, scns: seq<Scenario>, k: nat, lines: seq<string>)
    requires WellBehaved(pass)
    requires k <= |scns|
    requires PlayAll(pass, scns, lines).Some?
    ensures PlayAll(pass, scns[..k], lines).Some?
    decreases |scns|
  {
    if k < |scns| {
      var shorter := scns[..|scns| - 1];
      assert shorter[..k] == scns[..k];
      PlayAllPrefix(pass, shorter, k, lines);
    } else {
      assert scns[..k] == scns;
    }
  }

  /** If pass `i` cannot finish, neither can the session. */
  lemma PlayAllStops(pass: Pass, scns: seq<Scenario>, i: nat, lines: seq<string>)
    requires WellBehaved(pass)
    requires i < |scns|
    requires PlayAll(pass, scns[..i], lines).Some?
    requires pass(scns[i], lines, PlayAll(pass, scns[..i], lines).value.next).None?
    ensures PlayAll(pass, scns, lines).None?
  {
    PlayAllStep(pass, scns, i, lines);
    if PlayAll(pass, scns, lines).Some? {
      PlayAllPrefix(pass, scns, i + 1, lines);
    }
  }

  function TotalSaved(turns: seq<Turn>): int {
    if |turns| == 0 then 0 else TotalSaved(turns[..|turns| - 1]) + turns[|turns| - 1].outcome.saved
  }

  function TotalKilled(turns: seq<Turn>): int {
    if |turns| == 0 then 0 else TotalKilled(turns[..|turns| - 1]) + turns[|turns| - 1].outcome.killed
  }

  /** The log as the loop builds it: appended to only when a score is given. */
  function DiscomfortLog(turns: seq<Turn>): seq<Entry> {
    if |turns| == 0 then []
    else
      var earlier := DiscomfortLog(turns[..|turns| - 1]);
      var t := turns[|turns| - 1];
      if t.rating.Rated? then earlier + [Entry(t.name, t.rating.score)] else earlier
  }

  /** Appending a turn adds its outcome to the totals and, if rated, one
      entry to the log. */
  lemma AppendTurn(turns: seq<Turn>, t: Turn)
    ensures TotalSaved(turns + [t]) == TotalSaved(turns) + t.outcome.saved
    ensures TotalKilled(turns + [t]) == TotalKilled(turns) + t.outcome.killed
    ensures DiscomfortLog(turns + [t])
            == DiscomfortLog(turns) + (if t.rating.Rated? then [Entry(t.name, t.rating.score)] else [])
  {
  }

  /** The log has one entry per rated turn, in turn order, carrying that
      turn's name and score; `ps` says which turn each entry came from. */
  lemma {:induction false} DiscomfortLogOrder(turns: seq<Turn>) returns (ps: seq<nat>)
    ensures |ps| == |DiscomfortLog(turns)|
    ensures forall k :: 0 <= k < |ps| ==>
              ps[k] < |turns| && turns[ps[k]].rating.Rated?
              && DiscomfortLog(turns)[k] == Entry(turns[ps[k]].name, turns[ps[k]].rating.score)
    ensures forall k, l :: 0 <= k < l < |ps| ==> ps[k] < ps[l]
    ensures forall i :: 0 <= i < |turns| && turns[i].rating.Rated? ==> i in ps
    decreases |turns|
  {
    if |turns| == 0 {
      ps := [];
    } else {
      var n := |turns| - 1;
      var earlier := turns[..n];
      var qs := DiscomfortLogOrder(earlier);
      var log := DiscomfortLog(turns);
      var prev := DiscomfortLog(earlier);
      forall k | 0 <= k < |qs| ensures turns[qs[k]] == earlier[qs[k]] {
      }
      if turns[n].rating.Rated? {
        ps := qs + [n];
        assert log == prev + [Entry(turns[n].name, turns[n].rating.score)];
      } else {
        ps := qs;
        assert log == prev;
      }
      forall i | 0 <= i < |turns| && turns[i].rating.Rated? ensures i in ps {
        if i < n {
          assert earlier[i] == turns[i];
        }
      }
    }
  }

  /** The final report: totals and the most uncomfortable entry. */
  datatype Report = Report(saved: int, killed: int, worst: Option<Entry>)

  /** A session either reaches the report or stops when the input runs out
      (an uncaught end-of-file in the script: no report is printed). */
  datatype SessionResult = Completed(report: Report) | InputExhausted

  /** The script's main loop over `scns`, reading `lines` as console input,
      with `pass` as the loop body. */
  method RunSession(pass: Pass, scns: seq<Scenario>, lines: seq<string>) returns (result: SessionResult)
    requires WellBehaved(pass)
    ensures result.Completed? <==> PlayAll(pass, scns, lines).Some?
    ensures result.Completed? ==>
              var turns := PlayAll(pass, scns, lines).value.value;
              result.report == Report(TotalSaved(turns), TotalKilled(turns), MostUncomfortable(DiscomfortLog(turns)))
  {
    var saved, killed := 0, 0;
    var log: seq<Entry> := [];
    var turns: seq<Turn> := [];
    var pos: nat := 0;
    for i := 0 to |scns|
      invariant PlayAll(pass, scns[..i], lines) == Some(Read(turns, pos))
      invariant saved == TotalSaved(turns) && killed == TotalKilled(turns)
      invariant log == DiscomfortLog(turns)
    {
      var step := pass(scns[i], lines, pos);
      if step.None? {
        PlayAllStops(pass, scns, i, lines);
        return InputExhausted;
      }
      var turn := step.value.value;
      saved := saved + turn.outcome.saved;
      killed := killed + turn.outcome.killed;
      if turn.rating.Rated? {
        log := log + [Entry(turn.name, turn.rating.score)];
      }
      PlayAllStep(pass, scns, i, lines);
      AppendTurn(turns, turn);
      turns := turns + [turn];
      pos := step.value.next;
    }
    assert scns[..|scns|] == scns;
    result := Completed(Report(saved, killed, MostUncomfortable(log)));
  }

  /** The script itself: the loop over the fixed scenarios with PlayScenario
      as its body. */
  method RunScript(lines: seq<string>) returns (result: SessionResult)
    ensures result.Completed? <==> PlayAll(PlayScenario, Catalogue, lines).Some?
    ensures result.Completed? ==>
              var turns := PlayAll(PlayScenario, Catalogue, lines).value.value;
              result.report == Report(TotalSaved(turns), TotalKilled(turns), MostUncomfortable(DiscomfortLog(turns)))
  {
    PlayScenarioWellBehaved();
    result := RunSession(PlayScenario, Catalogue, lines);
  }

  /** Every rating the report can show lies between 1 and 5. */
  lemma ReportedRatingInRange(pass: Pass, scns: seq<Scenario>, lines: seq<string>)
    requires WellBehaved(pass)
    requires PlayAll(pass, scns, lines).Some?
    ensures forall e :: e in DiscomfortLog(PlayAll(pass, scns, lines).value.value) ==> 1 <= e.rating <= 5
  {
  }

  /** The same sums taken from the front, as a reference for the running
      totals the loop keeps. */
  function SumSaved(turns: seq<Turn>): int {
    if |turns| == 0 then 0 else turns[0].outcome.saved + SumSaved(turns[1..])
  }

  function SumKilled(turns: seq<Turn>): int {
    if |turns| == 0 then 0 else turns[0].outcome.killed + SumKilled(turns[1..])
  }

  /** The running totals are the sums of the outcomes of all turns. */
  lemma {:induction false} TotalsAreSums(turns: seq<Turn>)
    ensures TotalSaved(turns) == SumSaved(turns)
    ensures TotalKilled(turns) == SumKilled(turns)
    decreases |turns|
  {
    if |turns| > 0 {
      var n := |turns| - 1;
      var init := turns[..n];
      TotalsAreSums(init);
      if n > 0 {
        TotalsAreSums(init[1..]);
        TotalsAreSums(turns[1..]);
        assert turns[1..][..n - 1] == init[1..];
        assert turns[1..][n - 1] == turns[n];
      }
    }
  }

  /** The totals of four turns, spelled out. */
  lemma TotalsOfFour(turns: seq<Turn>)
    requires |turns| == 4
    ensures TotalSaved(turns)
            == turns[0].outcome.saved + turns[1].outcome.saved + turns[2].outcome.saved + turns[3].outcome.saved
    ensures TotalKilled(turns)
            == turns[0].outcome.killed + turns[1].outcome.killed + turns[2].outcome.killed + turns[3].outcome.killed
  {
    TotalsAreSums(turns);
    var t1, t2, t3 := turns[1..], turns[2..], turns[3..];
    assert t1[1..] == t2 && t2[1..] == t3 && t3[1..] == [];
    assert t1[0] == turns[1] && t2[0] == turns[2] && t3[0] == turns[3];
    assert SumSaved(t3) == turns[3].outcome.saved && SumKilled(t3) == turns[3].outcome.killed;
    assert SumSaved(t2) == turns[2].outcome.saved + SumSaved(t3);
    assert SumKilled(t2) == turns[2].outcome.killed + SumKilled(t3);
    assert SumSaved(t1) == turns[1].outcome.saved + SumSaved(t2);
    assert SumKilled(t1) == turns[1].outcome.killed + SumKilled(t2);
  }

  /** Over the fixed scenarios, whatever is decided, between 0 and 13 lives are
      saved and between 4 and 13 are lost; all-intervene gives 13 and 4,
      all-abstain gives 0 and 13. */
  lemma CatalogueTotals(pass: Pass, lines: seq<string>)
    requires WellBehaved(pass)
    requires PlayAll(pass, Catalogue, lines).Some?
    ensures var turns := PlayAll(pass, Catalogue, lines).value.value;
            && 0 <= TotalSaved(turns) <= 13
            && 4 <= TotalKilled(turns) <= 13
            && ((forall i :: 0 <= i < 4 ==> turns[i].decision == Intervene) ==>
                  TotalSaved(turns) == 13 && TotalKilled(turns) == 4)
            && ((forall i :: 0 <= i < 4 ==> turns[i].decision == Abstain) ==>
                  TotalSaved(turns) == 0 && TotalKilled(turns) == 13)
  {
    var turns := PlayAll(pass, Catalogue, lines).value.value;
    TotalsOfFour(turns);
    assert TurnFits(Catalogue[0], turns[0]);
    assert TurnFits(Catalogue[1], turns[1]);
    assert TurnFits(Catalogue[2], turns[2]);
    assert TurnFits(Catalogue[3], turns[3]);
  }
}
