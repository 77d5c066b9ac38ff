/**
 The end-of-session report of the most uncomfortable scenario: Python's
 `max(log, key=rating)`, which keeps the first entry holding the largest
 rating.
 */
module Summary {
  import opened Wrappers

  /** One discomfort-log entry: the scenario's name and the rating given. */
  datatype Entry = Entry(name: string, rating: int)

  /** `k` holds a largest rating and no earlier entry reaches it. */
  ghost predicate IsFirstMax(log: seq<Entry>, k: nat) {
    && k < |log|
    && (forall j :: 0 <= j < |log| ==> log[j].rating <= log[k].rating)
    && (forall j :: 0 <= j < k ==> log[j].rating < log[k].rating)
  }

  /** The left-to-right scan `max` performs: the running best is replaced
      only by a strictly larger rating. */
  function FirstMaxIndex(log: seq<Entry>): (k: nat)
    requires |log| > 0
    ensures IsFirstMax(log, k)
    decreases |log|
  {
    if |log| == 1 then 0
    else
      var k := FirstMaxIndex(log[..|log| - 1]);
      if log[|log| - 1].rating > log[k].rating then |log| - 1 else k
  }

  /** The first-maximum position is unique, so the scan above is the only
      answer the report can give. */
  lemma FirstMaxUnique(log: seq<Entry>, k: nat)
    requires IsFirstMax(log, k)
    ensures k == FirstMaxIndex(log)
  {
  }

  /** The entry reported as most uncomfortable; none when nothing was rated. */
  function MostUncomfortable(log: seq<Entry>): (r: Option<Entry>)
    ensures r.None? <==> |log| == 0
    ensures r.Some? ==> exists k: nat :: IsFirstMax(log, k) && log[k] == r.value
  {
    if |log| == 0 then None else Some(log[FirstMaxIndex(log)])
  }

  /** Ties go to the earlier entry: with ratings 3, 5, 5, 1 the second
      scenario is reported. */
  lemma TieGoesToFirst(a: string, b: string, c: string, d: string)
    ensures MostUncomfortable([Entry(a, 3), Entry(b, 5), Entry(c, 5), Entry(d, 1)]) == Some(Entry(b, 5))
  {
    var log := [Entry(a, 3), Entry(b, 5), Entry(c, 5), Entry(d, 1)];
    assert IsFirstMax(log, 1);
    FirstMaxUnique(log, 1);
  }
}
