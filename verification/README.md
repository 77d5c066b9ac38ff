# Trolley Problem Moral Simulator — a Dafny model

The simulator is a console script, `main.py`. It presents four trolley
scenarios in a fixed order. For each one it:

- asks for a decision, "1" (intervene) or "2" (do nothing), until the answer is valid;
- adds the lives saved and killed by the chosen branch to running totals;
- prints a philosophical evaluation;
- asks for an optional discomfort rating from 1 to 5;
- waits for ENTER.

At the end it reports the totals and the most uncomfortable rated scenario.

This project models that behaviour in Dafny:

- `text.dfy` (module `Text`): Python's `str.strip()`, and `str.isdigit()` with `int()` on ASCII digits.
- `scenarios.dfy` (`Scenarios`): the scenario record, the four fixed scenarios, and how a decision selects an outcome.
- `evaluation.dfy` (`Evaluation`): which utilitarian verdict and which deontological remark `evaluate_choice` selects.
- `prompts.dfy` (`Prompts`): the two "ask until valid" prompts, `scenario_prompt` and `ask_discomfort`. Console input is a finite sequence of lines, read from a position.
- `summary.dfy` (`Summary`): Python's `max(log, key=rating)`, which keeps the first entry holding the largest rating.
- `session.dfy` (`Session`): the main loop, the totals, the discomfort log, and the final report.

Console input is a `seq<string>` holding the lines after the text-speed
question. Each line is as `input()` returns it, without its newline. A prompt
that runs out of lines stands for `input()` raising `EOFError`. The script does
not catch that error, so the session ends with `InputExhausted` and prints no
summary.

The main loop (`Session.RunSession`) takes its body as a parameter, a `Pass`.
Its lemmas only use what `WellBehaved` says of a pass: a pass that completes
reads at least one line and yields a turn that fits its scenario.
`Session.PlayScenario` is the script's own pass: the decision prompt, the
discomfort prompt, then the ENTER pause, which consumes one line whatever it
says. `Session.RunScript` runs the loop over the four scenarios with that pass.

The scenario kind is stored as the string the script uses, not an
enumeration. This lets the model say what happens with a kind outside the four
known ones: no deontological remark is printed.

## Model

| member | source | states |
|---|---|---|
| Text.Strip | main.py:80 | the stripped answer is no longer than the line and neither starts nor ends with whitespace |
| Text.StripSplits | main.py:80 | every line is leading whitespace, then its stripped form, then trailing whitespace |
| Text.StripPadded | main.py:96 | whitespace around an already-trimmed string is exactly what `strip` removes, so the two lemmas pin `strip` down |
| Text.IsDigits | main.py:99 | `r.isdigit()` on ASCII: the string is non-empty and every character is a digit |
| Text.DecimalValue | main.py:99 | `int(r)` on a digit string: digits read most significant first, in base 10 |
| Text.DecimalValueZero | main.py:99 | a digit string has value 0 exactly when it is all zeros |
| Text.SmallDecimal | main.py:99 | a string is all digits with value d (d ≤ 9) exactly when it is d written with any number of leading zeros |
| Scenarios.Resolve | main.py:84-91 | answer "1" selects the pull numbers of the record; any other accepted answer ("2") selects the stay numbers |
| Scenarios.Catalogue | main.py:114-151 | the four scenario records, in order, with their names, descriptions, numbers and kinds |
| Scenarios.CatalogueShape | main.py:114-151 | there are four scenarios; in each, doing nothing saves no one, intervening kills exactly one, and intervening saves exactly those doing nothing would kill |
| Scenarios.KeyOfInjective | main.py:81-84 | "1" and "2" name different decisions, and each decision has one key |
| Evaluation.UtilitarianVerdict | main.py:50-57 | the verdict is three-way: more saved, equal totals, or fewer saved, each exactly when the numbers say so |
| Evaluation.DeontologyStance | main.py:59-67 | a remark is selected exactly for the four known kinds, and the remark belongs to that kind |
| Evaluation.StanceRoundTrip | main.py:59-67 | each remark is selected by its own kind, so each known kind selects exactly one remark |
| Evaluation.EvaluateChoice | main.py:47-67 | the evaluation's verdict follows the saved/killed comparison, and its remark exists exactly for known kinds and matches the kind |
| Evaluation.CatalogueVerdicts | main.py:114-151 | over the four scenarios, doing nothing always saves fewer than it kills; intervening saves more, except in the 1-vs-1 case where the totals tie; every scenario gets a remark |
| Evaluation.SameNumbersDifferentJudgment | main.py:114-132 | the switch and footbridge scenarios have identical numbers and verdicts but different deontological remarks |
| Prompts.FirstValid | main.py:79-83 | the answer is on the first line the parser accepts; every earlier line was rejected; no answer exactly when every remaining line is rejected |
| Prompts.FirstValidIgnoresLater | main.py:79-83 | lines after the accepted one do not affect the answer |
| Prompts.FirstValidSkipsRejected | main.py:79-83 | a run of rejected lines does not change the answer |
| Prompts.FirstValidAt | main.py:79-83 | an accepted line after only rejected ones is the answer, and reading resumes right after it |
| Prompts.FirstValidIgnoresEarlier | main.py:79-83 | lines read before the prompt only shift where the answer is found |
| Prompts.ParseDecision | main.py:80-81 | a line is accepted exactly when it strips to "1" or "2", and it then selects the decision with that key |
| Prompts.DecisionPadded | main.py:80-81 | a decision key with any surrounding whitespace is accepted as that decision |
| Prompts.ReadDecision | main.py:79-83 | the decision comes from the first line that strips to "1" or "2"; all earlier lines are asked again; with no such line the prompt never returns |
| Prompts.ScenarioPrompt | main.py:73-92 | decision "1" gives the scenario's pull numbers and "2" its stay numbers; the prompt returns exactly when a decision is read |
| Prompts.ScenarioPromptAt | main.py:79-92 | answering a key after any number of rejected lines selects that decision's branch and resumes on the next line |
| Prompts.ParseRating | main.py:96-100 | a blank line skips; an accepted score lies in 1..5 and is written as that digit with optional leading zeros |
| Prompts.RatingPadded | main.py:96-100 | every score 1..5, with leading zeros and surrounding whitespace, is accepted as that score |
| Prompts.RatingSingleDigit | main.py:99-100 | a single digit is accepted exactly when it is 1..5, so "0" and "6" are asked again |
| Prompts.RatingRejectsNonDigit | main.py:99 | a stripped answer holding a non-digit, such as "abc" or "-1", is rejected |
| Prompts.AskDiscomfort | main.py:94-101 | the answer is the first accepted line; earlier lines were rejected; a score is in 1..5; a skip comes from a blank line |
| Prompts.AskDiscomfortAt | main.py:94-101 | an accepted answer after only rejected lines is the one returned |
| Summary.FirstMaxIndex | main.py:170 | the scan returns a position holding the largest rating that no earlier entry reaches |
| Summary.FirstMaxUnique | main.py:170 | that first-maximum position is unique |
| Summary.MostUncomfortable | main.py:169-173 | nothing is reported exactly when the log is empty; otherwise the first maximum entry is reported |
| Summary.TieGoesToFirst | main.py:170 | with ratings 3, 5, 5, 1 the second entry is reported |
| Session.PlayScenario | main.py:158-165 | a completed pass reads at least one line and yields a turn with the scenario's name, the outcome its decision selects, and any score in 1..5 (which decision and rating are read from the input is stated by PlayScenarioAt and PlayScenarioNone) |
| Session.PlayScenarioReads | main.py:158-165 | when both prompts return and a line is left for the pause, the turn holds the decision read, its branch's outcome and the rating read, and reading resumes after the pause line |
| Session.PlayScenarioAt | main.py:158-165 | on concrete input, a decision key after rejected lines, then an accepted rating after rejected lines, then one pause line, give the turn holding exactly that decision, the outcome of its branch and that rating; the next pass reads from the line after the pause |
| Session.PlayScenarioNone | main.py:156-165 | a pass fails exactly when the input runs out first: no remaining line is a decision key, or no line after the decision is an acceptable rating, or no line is left for the pause |
| Session.PlayScenarioWellBehaved | main.py:158-165 | the script's pass meets the contract the loop relies on |
| Session.PlayAll | main.py:157-165 | a finished session has one turn per scenario, in order, and turn i fits scenario i |
| Session.PlayAllStep | main.py:157-165 | the session over i+1 scenarios is the session over i followed by one more pass from where it stopped |
| Session.PlayAllPrefix | main.py:157 | a session that finishes also finishes every prefix of the scenario list |
| Session.PlayAllStops | main.py:156-165 | if one pass runs out of input, the whole session does |
| Session.TotalSaved | main.py:153-159 | the saved total as the loop keeps it: 0, then the saved count of each turn added in order |
| Session.TotalKilled | main.py:153-160 | the killed total as the loop keeps it: 0, then the killed count of each turn added in order |
| Session.DiscomfortLog | main.py:154-164 | the log as the loop builds it: one entry with the scenario's name and score appended for each rated turn |
| Session.AppendTurn | main.py:159-164 | a turn adds its outcome to both totals and, only if rated, one entry to the log |
| Session.DiscomfortLogOrder | main.py:162-164 | the log has one entry per rated turn, in turn order, with that scenario's name and score, and no others |
| Session.TotalsAreSums | main.py:159-160 | the running totals equal the sums of the outcomes of all turns |
| Session.TotalsOfFour | main.py:159-160 | over four turns the totals are the four outcomes added up |
| Session.RunSession | main.py:153-173 | the loop completes exactly when every pass finds its input; the report then holds the totals and the first most-uncomfortable entry, or none if nothing was rated |
| Session.RunScript | main.py:153-173 | over the four fixed scenarios with the script's pass, the report is the same as in RunSession |
| Session.ReportedRatingInRange | main.py:162-171 | every rating in the log, and so the reported one, lies in 1..5 |
| Session.CatalogueTotals | main.py:114-160 | over the four scenarios, 0..13 lives are saved and 4..13 lost; all-intervene gives 13 and 4, all-abstain 0 and 13 |

## Left out

- `slow_print`, `PRINT_DELAY` and `time.sleep` (main.py:18-26, 112): these only control how fast text appears.
- `choose_text_speed` (main.py:28-45, 103): it only sets the print delay. The modelled input starts after its answer.
- The printed texts are not modelled: banners, scenario descriptions as shown, evaluation sentences, the "Press ENTER" prompt, the summary lines and the closing lesson. The model records which text is selected, not its wording.
- The double-effect paragraph of `evaluate_choice` (main.py:69-70) is not modelled: it is printed unconditionally.
- The `choice` argument of `evaluate_choice` is not modelled: the script never reads it.
- The model's session loop does not call `Evaluation.EvaluateChoice`. The call at main.py:161 only prints and changes no state, so its selection is modelled on its own.
- The `KeyboardInterrupt` handler (main.py:181-182) is not modelled: an interrupt is asynchronous and has no input-line counterpart.
- Prompts.ParseRating: counts only ASCII `0`-`9` as digits. Python's `str.isdigit` also accepts other Unicode digits. Some of those (other scripts' decimal digits) are accepted by `int()`; others (superscripts, for example) make `int()` raise `ValueError`, which the script does not catch. Neither case is modelled.
- Prompts.ParseRating: rejects a digit string of any length whose value is outside 1..5, and the prompt asks again. From Python 3.11 on, `int()` raises `ValueError` for a string longer than the interpreter's digit limit (4300 by default). The script does not catch that error, so such an answer crashes it. That crash depends on the Python version and its settings, and is not modelled.
- Text.Strip: whitespace is the fixed set of characters Python's `str.isspace` accepts. Unicode data tables outside that set are not modelled.
