/** The persisted token bucket and its rate bound, over the reals. */
module TokenBucket {
  import opened Basics
  import opened CapeJob

  datatype Bucket = Bucket(tokens: real, stamp: Instant)

  /** Tokens that `span` nanoseconds refill at `rate` tokens a minute. */
  function Refill(rate: nat, span: Instant): real {
    span as real / SECOND as real * rate as real / 60.0
  }

  function Refilled(b: Bucket, rate: nat, now: Instant): real {
    var elapsed := if now - b.stamp > MINUTE then MINUTE else now - b.stamp;
    var tokens := b.tokens + Refill(rate, elapsed);
    if tokens < rate as real then tokens else rate as real
  }

  /** One token at store time `now`; a missing row is a full bucket. */
  function Take(row: Option<Bucket>, rate: nat, now: Instant): Outcome<Bucket> {
    if row.Some? && row.value.tokens < 0.0 then Err(StoreUnavailable)
    else if row.Some? && now < row.value.stamp then Err(ClockRollback)
    else
      var tokens := if row.Some? then Refilled(row.value, rate, now) else rate as real;
      if tokens < 1.0 then Err(Coded(Throttled)) else Ok(Bucket(tokens - 1.0, now))
  }

  /** The most tokens a window of `span` nanoseconds may grant. */
  function Allowance(rate: nat, span: Instant): real {
    rate as real + Refill(rate, span)
  }

  /** Any stretch of grants stays within the allowance of the time it spans. */
  ghost predicate WithinRate(grants: seq<Instant>, rate: nat) {
    forall i, k :: 0 <= i <= k < |grants| ==> (k - i + 1) as real <= Allowance(rate, grants[k] - grants[i])
  }

  /** What is left of the allowance of the time since grant `i`, at instant `now`. */
  function Slack(grants: seq<Instant>, rate: nat, now: Instant, i: nat): real
    requires i < |grants|
  {
    Allowance(rate, now - grants[i]) - (|grants| - i) as real
  }

  /** `least` is the least of the slacks. */
  ghost predicate LeastSlack(grants: seq<Instant>, rate: nat, now: Instant, least: real) {
    && (forall i :: 0 <= i < |grants| ==> least <= Slack(grants, rate, now, i))
    && (exists i :: 0 <= i < |grants| && least == Slack(grants, rate, now, i))
  }

  /** Ties a bucket row to the history of its grants: it holds exactly what the tightest window leaves. */
  ghost predicate Accounts(row: Option<Bucket>, grants: seq<Instant>, rate: nat) {
    && (row.None? <==> grants == [])
    && (row.Some? ==>
          && row.value.stamp == grants[|grants| - 1] && row.value.tokens >= 0.0 && rate >= 1
          && LeastSlack(grants, rate, row.value.stamp, row.value.tokens))
  }

  lemma RefillAdds(rate: nat, a: Instant, b: Instant)
    ensures Refill(rate, a + b) == Refill(rate, a) + Refill(rate, b)
    ensures b >= 0 ==> Refill(rate, b) >= 0.0
  {
    var perNano := rate as real / (60 * SECOND) as real;
    assert forall x: Instant :: Refill(rate, x) == x as real * perNano;
  }

  lemma MinuteRefills(rate: nat, span: Instant)
    requires span >= MINUTE
    ensures Refill(rate, span) >= rate as real
  {
    RefillAdds(rate, MINUTE, span - MINUTE);
    assert Refill(rate, MINUTE) == rate as real;
  }

  /** Capping the elapsed time changes nothing: a minute fills the bucket. */
  lemma RefilledIs(b: Bucket, rate: nat, now: Instant)
    requires b.stamp <= now && b.tokens >= 0.0
    ensures var full := b.tokens + Refill(rate, now - b.stamp);
            Refilled(b, rate, now) == if full < rate as real then full else rate as real
  {
    hide Refill;
    if now - b.stamp > MINUTE {
      MinuteRefills(rate, MINUTE);
      MinuteRefills(rate, now - b.stamp);
    }
  }

  lemma SlackLater(grants: seq<Instant>, rate: nat, stamp: Instant, now: Instant, i: nat)
    requires i < |grants|
    ensures Slack(grants, rate, now, i) == Slack(grants, rate, stamp, i) + Refill(rate, now - stamp)
    ensures Slack(grants + [now], rate, now, i) == Slack(grants, rate, now, i) - 1.0
  {
    hide Refill;
    RefillAdds(rate, stamp - grants[i], now - stamp);
    assert now - grants[i] == stamp - grants[i] + (now - stamp);
    assert (|grants + [now]| - i) as real == (|grants| - i) as real + 1.0;
  }

  /** At a later instant the least slack has grown by the refill. */
  lemma LeastSlackLater(grants: seq<Instant>, rate: nat, stamp: Instant, now: Instant, least: real)
    requires LeastSlack(grants, rate, stamp, least)
    ensures LeastSlack(grants, rate, now, least + Refill(rate, now - stamp))
  {
    hide Refill, Slack;
    forall i | 0 <= i < |grants|
      ensures Slack(grants, rate, now, i) == Slack(grants, rate, stamp, i) + Refill(rate, now - stamp)
    {
      SlackLater(grants, rate, stamp, now, i);
    }
  }

  lemma NewSlack(grants: seq<Instant>, rate: nat, now: Instant)
    ensures Slack(grants + [now], rate, now, |grants|) == rate as real - 1.0
  {
    assert (|grants + [now]| - |grants|) as real == 1.0;
    assert Refill(rate, 0) == 0.0;
  }

  /** Every granted token is paid for: the accounting invariant survives a take, and implies the
      window bound for all windows seen so far. */
  lemma TakeAccounts(row: Option<Bucket>, grants: seq<Instant>, rate: nat, now: Instant)
    requires Accounts(row, grants, rate) && WithinRate(grants, rate)
    requires Take(row, rate, now).Ok?
    ensures Accounts(Some(Take(row, rate, now).value), grants + [now], rate)
    ensures WithinRate(grants + [now], rate)
  {
    hide Slack, Refill, Refilled, LeastSlack;
    if row.Some? {
      RefilledIs(row.value, rate, now);
      LeastSlackLater(grants, rate, row.value.stamp, now, row.value.tokens);
    }
    LeastAfterTake(row, grants, rate, now);
    SlacksBound(grants, rate, now, Take(row, rate, now).value.tokens);
  }

  lemma LeastAfterTake(row: Option<Bucket>, grants: seq<Instant>, rate: nat, now: Instant)
    requires row.None? <==> grants == []
    requires row.Some? ==>
             var full := row.value.tokens + Refill(rate, now - row.value.stamp);
             && LeastSlack(grants, rate, now, full)
             && Refilled(row.value, rate, now) == if full < rate as real then full else rate as real
    requires Take(row, rate, now).Ok?
    ensures LeastSlack(grants + [now], rate, now, Take(row, rate, now).value.tokens)
  {
    hide Slack, Refill, Refilled;
    var all, least := grants + [now], Take(row, rate, now).value.tokens;
    NewSlack(grants, rate, now);
    forall i | 0 <= i < |grants| ensures Slack(all, rate, now, i) == Slack(grants, rate, now, i) - 1.0 {
      SlackLater(grants, rate, now, now, i);
    }
    if row.Some? && least < rate as real - 1.0 {
      var i :| 0 <= i < |grants| && least + 1.0 == Slack(grants, rate, now, i);
      assert least == Slack(all, rate, now, i);
    } else {
      assert least == Slack(all, rate, now, |grants|);
    }
  }

  lemma SlacksBound(grants: seq<Instant>, rate: nat, now: Instant, least: real)
    requires WithinRate(grants, rate) && LeastSlack(grants + [now], rate, now, least) && least >= 0.0
    ensures WithinRate(grants + [now], rate)
  {
    hide Refill, Allowance;
    var all := grants + [now];
    forall i, k | 0 <= i <= k < |all|
      ensures (k - i + 1) as real <= Allowance(rate, all[k] - all[i])
    {
      if k < |grants| {
        assert all[k] == grants[k] && all[i] == grants[i];
      } else {
        assert Slack(all, rate, now, i) >= least;
      }
    }
  }

  /** A window, ending now, that one more grant would overrun. */
  ghost predicate WouldOverrun(grants: seq<Instant>, rate: nat, now: Instant) {
    exists i :: 0 <= i < |grants| && (|grants| - i + 1) as real > Allowance(rate, now - grants[i])
  }

  /** A token is refused exactly when granting it would break the bound of some window; the clock is at fault exactly
      when it is behind the last grant. */
  lemma RefusedExactly(row: Option<Bucket>, grants: seq<Instant>, rate: nat, now: Instant)
    requires Accounts(row, grants, rate)
    ensures var behind := grants != [] && now < grants[|grants| - 1];
            && (Take(row, rate, now) == Err(ClockRollback) <==> behind)
            && (Take(row, rate, now) == Err(Coded(Throttled)) <==>
                !behind && (rate < 1 || WouldOverrun(grants, rate, now)))
            && (Take(row, rate, now).Ok? <==> !behind && rate >= 1 && !WouldOverrun(grants, rate, now))
  {
    hide Slack, Refill, Refilled, Allowance, LeastSlack;
    if row.Some? && row.value.stamp <= now {
      var full := row.value.tokens + Refill(rate, now - row.value.stamp);
      RefilledIs(row.value, rate, now);
      LeastSlackLater(grants, rate, row.value.stamp, now, row.value.tokens);
      OverrunIs(grants, rate, now, full);
    }
  }

  lemma OverrunIs(grants: seq<Instant>, rate: nat, now: Instant, least: real)
    requires LeastSlack(grants, rate, now, least)
    ensures WouldOverrun(grants, rate, now) <==> least < 1.0
  {
    hide Refill, Allowance;
    forall i | 0 <= i < |grants|
      ensures (|grants| - i + 1) as real > Allowance(rate, now - grants[i]) <==> Slack(grants, rate, now, i) < 1.0
    {
      assert (|grants| - i + 1) as real == (|grants| - i) as real + 1.0;
    }
  }
}
