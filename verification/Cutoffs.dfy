/** What the textual comparison of timestamps means for the worker's three cutoffs. */
module Cutoffs {
  import opened Records
  import opened TaskQueue
  import opened Machine
  import Expiry
  import T = Timestamps

  const SECOND: Time := 1_000_000_000

  /** SQL compares the stored texts. */
  ghost predicate ReadsText(c: Clockwork) {
    forall a, b :: T.Valid(a) && T.Valid(b) ==> (c.le(T.Nanos(a), T.Nanos(b)) <==> T.LessEq(T.Text(a), T.Text(b)))
  }

  /** Such a comparison exists, because no two instants are the same number of nanoseconds. */
  lemma TextIsReadable() returns (c: Clockwork)
    ensures ReadsText(c)
  {
    c := Clockwork((x: Time, y: Time) =>
      exists a, b :: T.Valid(a) && T.Valid(b) && T.Nanos(a) == x && T.Nanos(b) == y && T.LessEq(T.Text(a), T.Text(b)));
    forall a, b | T.Valid(a) && T.Valid(b)
      ensures c.le(T.Nanos(a), T.Nanos(b)) <==> T.LessEq(T.Text(a), T.Text(b))
    {
      if c.le(T.Nanos(a), T.Nanos(b)) {
        var a', b' :| T.Valid(a') && T.Valid(b') && T.Nanos(a') == T.Nanos(a) && T.Nanos(b') == T.Nanos(b) && T.LessEq(T.Text(a'), T.Text(b'));
        T.NanosIsInjective(a, a');
        T.NanosIsInjective(b, b');
      }
    }
  }

  /** A comparison of text is off by less than a second, either way. */
  lemma OffByLessThanASecond(c: Clockwork, a: T.Instant, b: T.Instant)
    requires ReadsText(c) && T.Valid(a) && T.Valid(b)
    ensures T.Nanos(a) + SECOND <= T.Nanos(b) ==> c.le(T.Nanos(a), T.Nanos(b))
    ensures c.le(T.Nanos(a), T.Nanos(b)) ==> T.Nanos(a) < T.Nanos(b) + SECOND
  {
    T.TextCutoffsAreWithinOneSecond(a, b);
  }

  /** The expiry query lists a VM no later than a second after its deadline and no earlier than a second before it. A
      delete task queued too early does no harm: syncDelete parses the deadline and compares instants. */
  lemma ExpiryIsWithinASecond(c: Clockwork, db: Db, id: int, deadline: T.Instant, now: T.Instant)
    requires ReadsText(c) && T.Valid(deadline) && T.Valid(now)
    requires id in db.vms && Eligible(db.vms[id]) && db.vms[id].requestedAt.Some? && db.vms[id].executeAfter == Some(T.Nanos(deadline))
    ensures T.Nanos(deadline) + SECOND <= T.Nanos(now) ==> Expiry.Due(c, db, id, T.Nanos(now))
    ensures Expiry.Due(c, db, id, T.Nanos(now)) ==> T.Nanos(deadline) < T.Nanos(now) + SECOND
  {
    OffByLessThanASecond(c, deadline, now);
  }

  /** Stale recovery takes every running row untouched for half an hour and a second, and none touched within half an
      hour less a second. */
  lemma RecoveryIsWithinASecond(c: Clockwork, rows: map<int, Task>, id: int, touched: T.Instant, now: Time, cutoff: T.Instant)
    requires ReadsText(c) && T.Valid(touched) && T.Valid(cutoff) && T.Nanos(cutoff) == now - 1_800 * SECOND
    requires id in rows && rows[id].status == Running && rows[id].updatedAt == T.Nanos(touched)
    ensures var after := Recover(rows, Stale(c, now), now)[id];
            && (T.Nanos(touched) + 1_800 * SECOND + SECOND <= now ==> after == Requeue(rows[id], now))
            && (after.status == Pending ==> T.Nanos(touched) + 1_800 * SECOND < now + SECOND)
  {
    OffByLessThanASecond(c, touched, cutoff);
  }

  /** The purge removes no settled row that finished less than a day less a second ago, unless its VM is long deleted. */
  lemma PurgeIsWithinASecond(c: Clockwork, rows: map<int, Task>, id: int, finished: T.Instant, now: Time, cutoff: T.Instant)
    requires ReadsText(c) && T.Valid(finished) && T.Valid(cutoff) && T.Nanos(cutoff) == now - 86_400 * SECOND
    requires id in rows && Settled(rows[id]) && rows[id].finishedAt == Some(T.Nanos(finished))
    ensures T.Nanos(finished) + 86_400 * SECOND + SECOND <= now ==> id !in PurgeFinished(rows, Outdated(c, now))
    ensures id !in PurgeFinished(rows, Outdated(c, now)) ==> T.Nanos(finished) + 86_400 * SECOND < now + SECOND
  {
    OffByLessThanASecond(c, cutoff, finished);
    T.TextCutoffsAreWithinOneSecond(finished, cutoff);
  }
}
