/**
  The timing of the heartbeat.  Ticks come every third of a lease, a renewal call is cut off
  after one interval, and time is one timeline in nanoseconds shared with the database clock.
  The worker counts the lease in nanoseconds; the database grants whole milliseconds of it.
 */
module Heartbeat {

  /** The answer to one renewal call. */
  datatype Answer = RenewedRow | NoRow | CallFailed

  /** One renewal call: its statement runs `applied` after the call starts, the call takes `duration`. */
  datatype Call = Call(applied: int, duration: int, answer: Answer)

  const SECOND := 1_000_000_000
  const MILLISECOND := 1_000_000

  function Interval(lease: nat): (interval: nat)
    ensures 0 < interval
  {
    if lease / 3 <= 0 then SECOND else lease / 3
  }

  /** leaseDuration.Milliseconds(), as the database adds it to its clock. */
  function Granted(lease: nat): nat {
    lease / MILLISECOND * MILLISECOND
  }

  /** Three intervals fit into what is granted. */
  predicate Fits(lease: nat) {
    3 * Interval(lease) <= Granted(lease)
  }

  predicate InTime(call: Call, interval: nat) {
    0 <= call.applied <= call.duration <= interval
  }

  /** At time t the row still carries an unexpired lease granted at one of these times. */
  ghost predicate Covered(grants: seq<int>, lease: nat, t: int) {
    exists i :: 0 <= i < |grants| && grants[i] <= t <= grants[i] + Granted(lease)
  }

  /** Grant i + 1 extends grant i before it expires, and within two intervals unless i is the claim itself. */
  predicate Extends(grants: seq<int>, i: int, lease: nat)
    requires 0 <= i < |grants| - 1
  {
    && grants[i] <= grants[i + 1] < grants[i] + Granted(lease)
    && (0 < i ==> grants[i + 1] <= grants[i] + 2 * Interval(lease))
  }

  /**
    The loop of the heartbeat goroutine.  `granted` is when the claim was committed, `started` when
    its reply reached the worker and the ticker was created, `calls` the renewals in order, and
    `rest` how long the loop waits for the job to end after the last of them.
   */
  method Beat(lease: nat, granted: int, started: int, calls: seq<Call>, rest: nat)
    returns (grants: seq<int>, end: int, cancelled: bool)
    requires granted <= started < granted + Interval(lease)
    requires forall i | 0 <= i < |calls| :: InTime(calls[i], Interval(lease))
    ensures 1 <= |grants| <= |calls| + 1 && grants[0] == granted
    // every renewal finds the lease it extends unexpired, later ones after at most two intervals
    ensures Fits(lease) ==> forall i | 0 <= i < |grants| - 1 :: Extends(grants, i, lease)
    // the lease never lapses while the heartbeat runs, and it cancels the job before expiry
    ensures Fits(lease) ==> granted <= end < grants[|grants| - 1] + Granted(lease)
    ensures Fits(lease) ==> forall t | granted <= t <= end :: Covered(grants, lease, t)
    ensures cancelled <==> exists i :: 0 <= i < |calls| && !calls[i].answer.RenewedRow?
    ensures !cancelled ==> |grants| == |calls| + 1
    ensures 1 < |grants| ==> grants[1] == started + Interval(lease) + calls[0].applied
  {
    var interval := Interval(lease);
    var now, tick := started, started + interval;
    grants := [granted];
    cancelled := false;
    var k := 0;
    while k < |calls|
      invariant 0 <= k <= |calls| && |grants| == k + 1 && grants[0] == granted
      invariant granted <= now && tick - interval <= now <= tick
      invariant Fits(lease) ==> forall i | 0 <= i < |grants| - 1 :: Extends(grants, i, lease)
      invariant k == 0 ==> grants[k] == granted && now == started && tick == started + interval
      invariant k > 0 ==> tick - interval <= grants[k] <= now
      invariant k > 0 ==> grants[1] == started + interval + calls[0].applied
      invariant Fits(lease) ==> forall t | granted <= t <= grants[k] :: Covered(grants, lease, t)
      invariant forall i | 0 <= i < k :: calls[i].answer.RenewedRow?
    {
      now := if now < tick then tick else now;
      var call := calls[k];
      assert InTime(call, interval);
      assert call.duration <= interval && now == tick;
      if !call.answer.RenewedRow? {
        end, cancelled := now + call.duration, true;
        if Fits(lease) { CoverTail(grants, lease, granted, end); }
        return;
      }
      var renewed := now + call.applied;
      var longer := grants + [renewed];
      if Fits(lease) {
        CoverTail(grants, lease, granted, renewed);
        CoverMore(grants, lease, granted, renewed);
        assert Extends(longer, k, lease);
        assert forall i | 0 <= i < k :: Extends(grants, i, lease) ==> Extends(longer, i, lease);
      }
      grants := longer;
      now := now + call.duration;
      tick := tick + interval;
      k := k + 1;
    }
    end := if now + rest < tick then now + rest else tick;
    if Fits(lease) { CoverTail(grants, lease, granted, end); }
  }

  lemma CoverTail(grants: seq<int>, lease: nat, from: int, end: int)
    requires grants != []
    requires forall t | from <= t <= grants[|grants| - 1] :: Covered(grants, lease, t)
    requires end <= grants[|grants| - 1] + Granted(lease)
    ensures forall t | from <= t <= end :: Covered(grants, lease, t)
  {
    forall t | from <= t <= end ensures Covered(grants, lease, t) {
      if grants[|grants| - 1] < t {
        assert grants[|grants| - 1] <= t <= grants[|grants| - 1] + Granted(lease);
      }
    }
  }

  lemma CoverMore(grants: seq<int>, lease: nat, from: int, end: int)
    requires forall t | from <= t <= end :: Covered(grants, lease, t)
    ensures forall t | from <= t <= end :: Covered(grants + [end], lease, t)
  {
    forall t | from <= t <= end ensures Covered(grants + [end], lease, t) {
      assert Covered(grants, lease, t);
      var i :| 0 <= i < |grants| && grants[i] <= t <= grants[i] + Granted(lease);
      assert (grants + [end])[i] == grants[i];
    }
  }

  /**
    The interval fits exactly when every renewal in time comes before the end of the lease, for
    which the lease must have at most two nanoseconds beyond whole milliseconds.
   */
  lemma IntervalFitsLease(lease: nat, granted: int)
    ensures Fits(lease) <==>
      forall started: int, applied: int
        | granted <= started < granted + Interval(lease) && 0 <= applied <= Interval(lease) ::
        Renewal(lease, started, applied) < granted + Granted(lease)
    ensures Fits(lease) <==> 3 <= lease && lease % MILLISECOND <= lease % 3
  {
    var interval := Interval(lease);
    assert Renewal(lease, granted + interval - 1, interval) == granted + 3 * interval - 1;
    assert lease == Granted(lease) + lease % MILLISECOND;
    assert lease == 3 * (lease / 3) + lease % 3;
    assert !Fits(lease) ==> Renewal(lease, granted + interval - 1, interval) >= granted + Granted(lease);
  }

  /** When the statement of the first renewal takes effect. */
  function Renewal(lease: nat, started: int, applied: int): int {
    started + Interval(lease) + applied
  }

  /** Every lease of whole milliseconds fits, the configured two minutes among them. */
  lemma WholeMillisecondsFit(milliseconds: nat)
    requires 0 < milliseconds
    ensures Fits(milliseconds * MILLISECOND)
    ensures Fits(120 * SECOND)
  {
    IntervalFitsLease(milliseconds * MILLISECOND, 0);
  }

  /** A lease of 1.5 ms is granted as 1 ms, and a renewal in time can come half a millisecond late. */
  lemma TruncatedLeaseIsLost()
    ensures var lease, granted, started, call := 1_500_000, 0, 499_999, Call(500_000, 500_000, RenewedRow);
      && granted <= started < granted + Interval(lease) && InTime(call, Interval(lease))
      && granted + Granted(lease) + 499_999 == Renewal(lease, started, call.applied)
  {
  }

  /**
    What a worker knows when it starts its ticker: if statements take effect within `bound`, the
    first renewal is sure to come within two intervals of the claim, two thirds of a lease, exactly
    when the claim's reply and the bound together take at most one interval.
   */
  lemma FirstRenewal(lease: nat, granted: int, started: int, bound: nat)
    ensures (forall applied: int | 0 <= applied <= bound ::
               Renewal(lease, started, applied) <= granted + 2 * Interval(lease))
      <==> started - granted + bound <= Interval(lease)
  {
    assert Renewal(lease, started, bound) == started + Interval(lease) + bound;
  }

  /** With a lease of 300 ms, a reply just under 100 ms and a statement of 100 ms, nearly all of it has passed. */
  lemma FirstRenewalCanBeLate()
    ensures var lease, granted, started := 300 * MILLISECOND, 0, 100 * MILLISECOND - 1;
      var call := Call(100 * MILLISECOND, 100 * MILLISECOND, RenewedRow);
      && Fits(lease) && granted <= started < granted + Interval(lease) && InTime(call, Interval(lease))
      && granted + 2 * Interval(lease) < Renewal(lease, started, call.applied)
  {
  }
}
