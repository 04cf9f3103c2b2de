/** Timed steps on a clock that does not go back. */
module Clock {

  datatype Timed<A> = Timed(now: int, action: A)

  predicate ClockRuns<A>(now: int, steps: seq<Timed<A>>)
    decreases |steps|
  {
    steps != [] ==> now <= steps[0].now && ClockRuns(steps[0].now, steps[1..])
  }

  function FinalClock<A>(now: int, steps: seq<Timed<A>>): int
    decreases |steps|
  {
    if steps == [] then now else FinalClock(steps[0].now, steps[1..])
  }
}
