/** Points in time: a date and the microseconds since midnight, in UTC. */
module Instants {
  import opened Calendar

  datatype Instant = Instant(date: Date, micros: int)

  predicate Earlier(a: Instant, b: Instant) {
    Before(a.date, b.date) || (a.date == b.date && a.micros < b.micros)
  }

  predicate NotAfter(a: Instant, b: Instant) {
    a == b || Earlier(a, b)
  }

  function Midnight(d: Date): Instant {
    Instant(d, 0)
  }

  lemma NotAfterTransitive(a: Instant, b: Instant, c: Instant)
    requires NotAfter(a, b) && NotAfter(b, c)
    ensures NotAfter(a, c) && AtMost(a.date, c.date)
  {
  }
}
