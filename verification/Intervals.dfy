/** Times of events, and how many of them fall into an interval. */
module Intervals {

  type Instant = int

  /** How many of the times lie in `[from, to)`. */
  function CountIn(times: seq<Instant>, from: Instant, to: Instant): nat {
    if times == [] then 0
    else CountIn(times[..|times| - 1], from, to) + if from <= times[|times| - 1] < to then 1 else 0
  }

  lemma CountPush(times: seq<Instant>, t: Instant, from: Instant, to: Instant)
    ensures CountIn(times + [t], from, to) == CountIn(times, from, to) + if from <= t < to then 1 else 0
  {
    assert (times + [t])[..|times|] == times;
  }

  /** How many lie in the window that begins at `from`. */
  function InWindow(times: seq<Instant>, from: Instant, window: nat): nat {
    CountIn(times, from, from + window)
  }

  lemma {:induction false} NoneBefore(times: seq<Instant>, from: Instant, to: Instant)
    requires forall i :: 0 <= i < |times| ==> times[i] < from
    ensures CountIn(times, from, to) == 0
  {
    if times != [] {
      NoneBefore(times[..|times| - 1], from, to);
    }
  }
}
