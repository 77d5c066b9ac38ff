/**
 The two "ask until the answer is valid" prompts. Console input is a finite
 sequence of lines; a prompt reads lines from the front until one parses, and
 reports how many it used. Running out of lines (end of input) gives `None`.
 */
module Prompts {
  import opened Wrappers
  import opened Text
  import opened Scenarios

  /** A value read from the console, and the position of the line after the
      one that gave it: where the next prompt starts reading. */
  datatype Read<T> = Read(value: T, next: nat)

  /** The reusable prompt loop, reading from line `from` on: the answer is the
      first line `parse` accepts, and every line before it was rejected. Past
      the last line there is nothing to read. */
  function FirstValid<T(==)>(lines: seq<string>, from: nat, parse: string -> Option<T>): (r: Option<Read<T>>)
    ensures r.Some? ==> from < r.value.next <= |lines|
    ensures r.Some? ==> parse(lines[r.value.next - 1]) == Some(r.value.value)
    ensures r.Some? ==> forall i :: from <= i < r.value.next - 1 ==> parse(lines[i]).None?
    ensures r.None? <==> forall i :: from <= i < |lines| ==> parse(lines[i]).None?
    decreases |lines| - from
  {
    if from >= |lines| then None
    else match parse(lines[from])
      case Some(v) => Some(Read(v, from + 1))
      case None => FirstValid(lines, from + 1, parse)
  }

  /** Lines after the accepted one are never looked at. */
  lemma {:induction false} FirstValidIgnoresLater<T>(lines: seq<string>, more: seq<string>, from: nat, parse: string -> Option<T>)
    requires FirstValid(lines, from, parse).Some?
    ensures FirstValid(lines + more, from, parse) == FirstValid(lines, from, parse)
    decreases |lines| - from
  {
    assert (lines + more)[from] == lines[from];
    if parse(lines[from]).None? {
      FirstValidIgnoresLater(lines, more, from + 1, parse);
    }
  }

  /** Rejected lines never advance the dialogue: starting before a run of
      rejected lines gives the same answer as starting after it. */
  lemma FirstValidSkipsRejected<T>(lines: seq<string>, from: nat, upto: nat, parse: string -> Option<T>)
    requires from <= upto <= |lines|
    requires forall i :: from <= i < upto ==> parse(lines[i]).None?
    ensures FirstValid(lines, from, parse) == FirstValid(lines, upto, parse)
  {
  }

  /** Conversely, a line `parse` accepts after a run of rejected lines is the
      answer, and reading resumes right after it. */
  lemma FirstValidAt<T>(lines: seq<string>, from: nat, k: nat, v: T, parse: string -> Option<T>)
    requires from <= k < |lines|
    requires forall i :: from <= i < k ==> parse(lines[i]).None?
    requires parse(lines[k]) == Some(v)
    ensures FirstValid(lines, from, parse) == Some(Read(v, k + 1))
  {
  }

  /** Lines read before the prompt do not influence it. */
  lemma {:induction false} FirstValidIgnoresEarlier<T>(earlier: seq<string>, lines: seq<string>, from: nat, parse: string -> Option<T>)
    ensures FirstValid(earlier + lines, |earlier| + from, parse)
            == match FirstValid(lines, from, parse)
               case None => None
               case Some(rd) => Some(Read(rd.value, |earlier| + rd.next))
    decreases |lines| - from
  {
    if from < |lines| {
      assert (earlier + lines)[|earlier| + from] == lines[from];
      FirstValidIgnoresEarlier(earlier, lines, from + 1, parse);
    }
  }

  predicate IsDecisionKey(s: string) {
    s == "1" || s == "2"
  }

  /** One answer at the decision prompt: accepted only if it strips to "1" or "2". */
  function ParseDecision(line: string): (r: Option<Decision>)
    ensures r.Some? <==> IsDecisionKey(Strip(line))
    ensures r.Some? ==> Strip(line) == KeyOf(r.value)
  {
    var t := Strip(line);
    if t == "1" then Some(Intervene)
    else if t == "2" then Some(Abstain)
    else None
  }

  /** Any amount of surrounding whitespace is accepted around a decision key. */
  lemma DecisionPadded(pre: string, d: Decision, post: string)
    requires AllSpace(pre) && AllSpace(post)
    ensures ParseDecision(pre + KeyOf(d) + post) == Some(d)
  {
    StripPadded(pre, KeyOf(d), post);
  }

  /** The loop of `scenario_prompt`, reading from line `from`: the first
      line that strips to "1" or "2" decides, every earlier one is asked again
      (ParseDecision says which lines those are). */
  function ReadDecision(lines: seq<string>, from: nat): (r: Option<Read<Decision>>)
    ensures r.None? <==> forall i :: from <= i < |lines| ==> ParseDecision(lines[i]).None?
    ensures r.Some? ==> from < r.value.next <= |lines|
    ensures r.Some? ==> ParseDecision(lines[r.value.next - 1]) == Some(r.value.value)
    ensures r.Some? ==> forall i :: from <= i < r.value.next - 1 ==> ParseDecision(lines[i]).None?
  {
    FirstValid(lines, from, ParseDecision)
  }

  /** What `scenario_prompt` returns: the decision, the outcome it selects, and
      where reading continues. */
  datatype Prompted = Prompted(decision: Decision, outcome: Outcome, next: nat)

  /** `scenario_prompt`: once a decision is read, the matching branch of the
      scenario record gives the lives saved and killed. */
  function ScenarioPrompt(scn: Scenario, lines: seq<string>, from: nat): (r: Option<Prompted>)
    ensures r.None? <==> ReadDecision(lines, from).None?
    ensures r.Some? ==> r.value.decision == ReadDecision(lines, from).value.value
    ensures r.Some? ==> r.value.next == ReadDecision(lines, from).value.next
    ensures r.Some? && r.value.decision == Intervene ==>
              r.value.outcome.saved == scn.savedIfPull && r.value.outcome.killed == scn.killedIfPull
    ensures r.Some? && r.value.decision == Abstain ==>
              r.value.outcome.saved == scn.savedIfStay && r.value.outcome.killed == scn.killedIfStay
  {
    match ReadDecision(lines, from)
    case None => None
    case Some(rd) => Some(Prompted(rd.value, Resolve(scn, rd.value), rd.next))
  }

  /** Answering with a decision key (whitespace allowed) after any number of
      rejected lines selects that decision's branch of the scenario. */
  lemma ScenarioPromptAt(scn: Scenario, lines: seq<string>, from: nat, k: nat, d: Decision)
    requires from <= k < |lines|
    requires forall i :: from <= i < k ==> ParseDecision(lines[i]).None?
    requires Strip(lines[k]) == KeyOf(d)
    ensures ScenarioPrompt(scn, lines, from) == Some(Prompted(d, Resolve(scn, d), k + 1))
  {
    FirstValidAt(lines, from, k, d, ParseDecision);
  }

  /** A discomfort answer: skipped, or a score. */
  datatype Rating = Skipped | Rated(score: int)

  /** One answer at the discomfort prompt: blank skips, a digit string worth
      1 to 5 is a score, anything else is rejected. */
  function ParseRating(line: string): (r: Option<Rating>)
    ensures r == Some(Skipped) <==> Strip(line) == ""
    ensures r.Some? && r.value.Rated? ==> 1 <= r.value.score <= 5
    ensures r.Some? && r.value.Rated? ==> ZeroPadded(Strip(line), r.value.score)
  {
    var t := Strip(line);
    if t == "" then Some(Skipped)
    else if IsDigits(t) && 1 <= DecimalValue(t) <= 5 then
      SmallDecimal(t, DecimalValue(t));
      Some(Rated(DecimalValue(t)))
    else None
  }

  /** Conversely, every score 1 to 5 is accepted, written with any number of
      leading zeros and any surrounding whitespace. */
  lemma RatingPadded(pre: string, core: string, n: int, post: string)
    requires AllSpace(pre) && AllSpace(post)
    requires 1 <= n <= 5 && ZeroPadded(core, n)
    ensures ParseRating(pre + core + post) == Some(Rated(n))
  {
    SmallDecimal(core, n);
    StripPadded(pre, core, post);
  }

  /** A single digit is accepted exactly when it lies in 1..5: so "1" and "5"
      are accepted while "0" and "6" through "9" are asked again. */
  lemma RatingSingleDigit(pre: string, d: nat, post: string)
    requires AllSpace(pre) && AllSpace(post)
    requires d <= 9
    ensures ParseRating(pre + [DigitChar(d)] + post) == (if 1 <= d <= 5 then Some(Rated(d)) else None)
  {
    var t := [DigitChar(d)];
    assert Strip(pre + t + post) == t by {
      StripPadded(pre, t, post);
    }
    assert IsDigits(t) && DecimalValue(t) == d by {
      assert t[..0] == [];
    }
  }

  /** An answer holding anything but digits once stripped (a word, a sign, a
      decimal point) is rejected unless it is blank. */
  lemma RatingRejectsNonDigit(line: string, i: nat)
    requires i < |Strip(line)| && !IsAsciiDigit(Strip(line)[i])
    ensures ParseRating(line) == None
  {
  }

  /** `ask_discomfort`, reading from line `from`: the answer is the first line
      the rating prompt accepts; a score it returns is always between 1 and 5. */
  function AskDiscomfort(lines: seq<string>, from: nat): (r: Option<Read<Rating>>)
    ensures r.None? <==> forall i :: from <= i < |lines| ==> ParseRating(lines[i]).None?
    ensures r.Some? ==> from < r.value.next <= |lines|
    ensures r.Some? ==> ParseRating(lines[r.value.next - 1]) == Some(r.value.value)
    ensures r.Some? ==> forall i :: from <= i < r.value.next - 1 ==> ParseRating(lines[i]).None?
    ensures r.Some? && r.value.value.Rated? ==> 1 <= r.value.value.score <= 5
    ensures r.Some? && r.value.value == Skipped ==> Strip(lines[r.value.next - 1]) == ""
  {
    FirstValid(lines, from, ParseRating)
  }

  /** Conversely, an accepted answer after any number of rejected lines is
      the one returned. */
  lemma AskDiscomfortAt(lines: seq<string>, from: nat, k: nat, rating: Rating)
    requires from <= k < |lines|
    requires forall i :: from <= i < k ==> ParseRating(lines[i]).None?
    requires ParseRating(lines[k]) == Some(rating)
    ensures AskDiscomfort(lines, from) == Some(Read(rating, k + 1))
  {
    FirstValidAt(lines, from, k, rating, ParseRating);
  }
}
