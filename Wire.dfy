/** The single data line as the driver sees it through digitalRead: a finite
    recording of sampled levels. The pin is configured INPUT_PULLUP, so once the
    recording is exhausted the line idles High. */
module Wire {

  datatype Level = Low | High

  /** The level read by the i-th call of digitalRead. */
  function Sample(line: seq<Level>, i: nat): Level
  {
    if i < |line| then line[i] else High
  }

  /** The n samples from sample `from` on all read `level`. */
  ghost predicate Holds(line: seq<Level>, from: nat, n: nat, level: Level)
  {
    forall t :: from <= t < from + n ==> Sample(line, t) == level
  }
}
