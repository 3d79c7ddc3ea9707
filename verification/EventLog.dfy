/**
 * The append-only event log under every engine: one sequence of recorded events, oldest first, that only grows
 * at its end and whose recorded times never decrease.
 */
module EventLog {

  type Time = int

  datatype Log<+R> = Empty | Append(prev: Log<R>, time: Time, record: R)

  /** `earlier` is what the log was before some of its last appends: what a crash can leave behind. */
  predicate Extends<R(==)>(later: Log<R>, earlier: Log<R>) {
    later == earlier || (later.Append? && Extends(later.prev, earlier))
  }

  /** A new event may not be recorded before the last one. */
  predicate Admits<R>(log: Log<R>, time: Time) {
    log.Append? ==> log.time <= time
  }

  predicate Ordered<R>(log: Log<R>) {
    log.Append? ==> Ordered(log.prev) && Admits(log.prev, log.time)
  }

  predicate Recorded<R(==)>(log: Log<R>, record: R) {
    log.Append? && (log.record == record || Recorded(log.prev, record))
  }

  lemma {:induction false} ExtendsTrans<R>(c: Log<R>, b: Log<R>, a: Log<R>)
    requires Extends(c, b) && Extends(b, a)
    ensures Extends(c, a)
    decreases c
  {
    if c != b { ExtendsTrans(c.prev, b, a); }
  }

  /** In an ordered log nothing that was recorded earlier carries a later time. */
  lemma {:induction false} EarlierIsNotLater<R>(log: Log<R>, earlier: Log<R>)
    requires Ordered(log) && Extends(log, earlier) && earlier.Append?
    ensures earlier.time <= log.time
  {
    if log != earlier { EarlierIsNotLater(log.prev, earlier); }
  }
}
