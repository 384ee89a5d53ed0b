/** Time, and runs along which it never goes back. */
module Clock {
  type Time = int

  /** `at` reads the time of each step of a run. */
  ghost predicate MonotoneBy<T>(at: T -> Time, run: seq<T>) {
    forall i, j :: 0 <= i < j < |run| ==> at(run[i]) <= at(run[j])
  }
}
