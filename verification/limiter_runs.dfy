/** Properties of the limiter over a whole history of calls to `Store.update`,
    each call an atomic step (the source never suspends inside `update`). */
module LimiterRuns {
  import opened Limiter

  /** One call `update(key, limit)`: `at` is its own clock read, `read` the
      one `get_tat` makes. */
  datatype Arrival = Arrival(key: string, limit: RateLimit, at: real, read: real)

  predicate AllValid(calls: seq<Arrival>) {
    forall i | 0 <= i < |calls| :: calls[i].limit.Valid()
  }

  /** The decisions of a sequence of calls, in order, and the map they leave. */
  function Run(keys: map<string, real>, calls: seq<Arrival>): (r: (seq<Decision>, map<string, real>))
    requires AllValid(calls)
    ensures |r.0| == |calls|
    decreases |calls|
  {
    if calls == [] then ([], keys)
    else
      var last := calls[|calls| - 1];
      var before := Run(keys, calls[..|calls| - 1]);
      var step := Step(before.1, last.key, last.limit, last.at, last.read);
      (before.0 + [step.0], step.1)
  }

  /** Running one more call appends its decision and steps the final map. */
  lemma RunSnoc(keys: map<string, real>, init: seq<Arrival>, last: Arrival)
    requires AllValid(init) && last.limit.Valid()
    ensures AllValid(init + [last])
    ensures Run(keys, init + [last]) ==
            (Run(keys, init).0 + [Step(Run(keys, init).1, last.key, last.limit, last.at, last.read).0],
             Step(Run(keys, init).1, last.key, last.limit, last.at, last.read).1)
  {
    assert (init + [last])[..|init|] == init;
  }

  /** Keys are never removed, and a key's stored TAT never decreases, whatever
      the other keys do and even if the clock goes backwards. */
  lemma {:induction false} TatNeverDecreases(keys: map<string, real>, calls: seq<Arrival>, k: string)
    requires AllValid(calls)
    ensures keys.Keys <= Run(keys, calls).1.Keys
    ensures k in keys ==> Run(keys, calls).1[k] >= keys[k]
    decreases |calls|
  {
    if calls != [] {
      var init := calls[..|calls| - 1];
      TatNeverDecreases(keys, init, k);
    }
  }

  /** The calls made on key `k`, in order. */
  function OnKey(calls: seq<Arrival>, k: string): (r: seq<Arrival>)
    ensures |r| <= |calls|
    decreases |calls|
  {
    if calls == [] then []
    else
      var last := calls[|calls| - 1];
      OnKey(calls[..|calls| - 1], k) + (if last.key == k then [last] else [])
  }

  lemma {:induction false} OnKeyValid(calls: seq<Arrival>, k: string)
    requires AllValid(calls)
    ensures AllValid(OnKey(calls, k))
    decreases |calls|
  {
    if calls != [] {
      OnKeyValid(calls[..|calls| - 1], k);
    }
  }

  /** The decisions `ds` took for the calls made on key `k`, in order. */
  function DecisionsOn(calls: seq<Arrival>, ds: seq<Decision>, k: string): (r: seq<Decision>)
    requires |ds| == |calls|
    ensures |r| == |OnKey(calls, k)|
    decreases |calls|
  {
    if calls == [] then []
    else
      var n := |calls| - 1;
      DecisionsOn(calls[..n], ds[..n], k) + (if calls[n].key == k then [ds[n]] else [])
  }

  /** Two maps that agree on key `k`. */
  predicate SameAt(m1: map<string, real>, m2: map<string, real>, k: string) {
    (k in m1 <==> k in m2) && (k in m1 ==> m1[k] == m2[k])
  }

  /** A step on `k` sees only the entry for `k`. */
  lemma StepOnKey(m1: map<string, real>, m2: map<string, real>, k: string, limit: RateLimit, now: real, read: real)
    requires limit.Valid() && SameAt(m1, m2, k)
    ensures Step(m1, k, limit, now, read).0 == Step(m2, k, limit, now, read).0
    ensures SameAt(Step(m1, k, limit, now, read).1, Step(m2, k, limit, now, read).1, k)
  {
  }

  /** A step on another key leaves the entry for `k` as it was. */
  lemma StepOffKey(m: map<string, real>, key: string, limit: RateLimit, now: real, read: real, k: string)
    requires limit.Valid() && key != k
    ensures SameAt(Step(m, key, limit, now, read).1, m, k)
  {
    var m' := Step(m, key, limit, now, read).1;
    assert k in m' - {key} <==> k in m - {key};
  }

  /** Key isolation: what happens to key `k` in any interleaving of calls is
      exactly what would happen if only the calls on `k` had been made. The
      decisions on `k` and the final TAT of `k` are the same either way. */
  lemma {:induction false} KeysAreIsolated(m1: map<string, real>, m2: map<string, real>, calls: seq<Arrival>, k: string)
    requires AllValid(calls) && SameAt(m1, m2, k)
    ensures AllValid(OnKey(calls, k))
    ensures DecisionsOn(calls, Run(m1, calls).0, k) == Run(m2, OnKey(calls, k)).0
    ensures SameAt(Run(m1, calls).1, Run(m2, OnKey(calls, k)).1, k)
    decreases |calls|
  {
    OnKeyValid(calls, k);
    if calls != [] {
      var n := |calls| - 1;
      var init, last := calls[..n], calls[n];
      KeysAreIsolated(m1, m2, init, k);
      OnKeyValid(init, k);
      var part := Run(m1, init);
      var full := Run(m1, calls);
      assert full.0[..n] == part.0;
      var only := OnKey(init, k);
      var onlyRun := Run(m2, only);
      if last.key == k {
        assert OnKey(calls, k) == only + [last];
        assert (only + [last])[..|only|] == only;
        StepOnKey(part.1, onlyRun.1, k, last.limit, last.at, last.read);
      } else {
        assert OnKey(calls, k) == only;
        StepOffKey(part.1, last.key, last.limit, last.at, last.read, k);
      }
    }
  }

  /** Every call on `k` is at one request per period, and the clock moves
      between the two reads of each call. */
  predicate RateOneWithGap(calls: seq<Arrival>, k: string) {
    forall i | 0 <= i < |calls| :: calls[i].key == k ==> calls[i].limit.rate == 1 && calls[i].read > calls[i].at
  }

  /** At one request per period, a key never seen is never admitted while the
      clock moves between the two reads: each call is rejected and nothing is
      stored, so the next call is again a first call. */
  lemma {:induction false} RateOneNeverAdmits(keys: map<string, real>, calls: seq<Arrival>, k: string)
    requires AllValid(calls) && k !in keys && RateOneWithGap(calls, k)
    ensures k !in Run(keys, calls).1
    ensures forall i | 0 <= i < |calls| :: calls[i].key == k ==> Run(keys, calls).0[i].Retry?
    decreases |calls|
  {
    if calls != [] {
      var n := |calls| - 1;
      var init, last := calls[..n], calls[n];
      assert RateOneWithGap(init, k);
      RateOneNeverAdmits(keys, init, k);
      var before := Run(keys, init);
      assert Run(keys, calls).0[..n] == before.0;
      if last.key == k {
        FreshKeyRejectedAtRateOne(before.1, k, last.limit.per, last.at, last.read);
      }
    }
  }

  /** `n` identical calls. */
  function Repeat(a: Arrival, n: nat): (r: seq<Arrival>)
    ensures |r| == n && forall i | 0 <= i < n :: r[i] == a
  {
    seq(n, _ => a)
  }

  /** How far ahead of the clock `j` admitted calls at one instant put a key:
      `j` emission intervals, added one at a time. */
  function Ahead(limit: RateLimit, j: nat): (r: real)
    requires limit.Valid()
    ensures r >= 0.0
  {
    if j == 0 then 0.0 else Ahead(limit, j - 1) + limit.Inverse()
  }

  lemma {:induction false} AheadIsMultiple(limit: RateLimit, j: nat)
    requires limit.Valid()
    ensures Ahead(limit, j) == (j as real) * limit.Inverse()
  {
    if j > 0 {
      AheadIsMultiple(limit, j - 1);
    }
  }

  /** Fewer than `rate` intervals fit within the burst tolerance; `rate`
      intervals make up the whole period. */
  lemma AheadBounds(limit: RateLimit, j: nat)
    requires limit.Valid() && j <= limit.rate
    ensures j < limit.rate ==> Ahead(limit, j) <= limit.MaxInterval()
    ensures j == limit.rate ==> Ahead(limit, j) == limit.Period()
  {
    AheadIsMultiple(limit, j);
    var inv := limit.Inverse();
    assert limit.MaxInterval() == ((limit.rate - 1) as real) * inv;
    if j < limit.rate {
      var spare := (limit.rate - 1 - j) as real;
      assert spare * inv >= 0.0;
      assert ((limit.rate - 1) as real) * inv - (j as real) * inv == spare * inv;
    }
  }

  /** Call `j` of a burst: with the key `j - 1` intervals ahead (or unseen,
      when `j == 1`) and `j <= rate`, the call is admitted and leaves the key
      `j` intervals ahead. */
  lemma BurstStep(m: map<string, real>, key: string, limit: RateLimit, now: real, j: nat)
    requires limit.Valid() && 0 < j <= limit.rate
    requires if j == 1 then key !in m else key in m && m[key] == now + Ahead(limit, j - 1)
    ensures StepOneRead(m, key, limit, now).0 == Admitted
    ensures key in StepOneRead(m, key, limit, now).1
    ensures StepOneRead(m, key, limit, now).1[key] == now + Ahead(limit, j)
  {
    AheadBounds(limit, j - 1);
  }

  /** The call after a full burst: the key is a whole period ahead, which is
      more than the tolerance, so the call must wait exactly one period. */
  lemma BurstOverflow(m: map<string, real>, key: string, limit: RateLimit, now: real)
    requires limit.Valid()
    requires key in m && m[key] == now + Ahead(limit, limit.rate)
    ensures StepOneRead(m, key, limit, now).0 == Retry(limit.Period())
  {
    AheadBounds(limit, limit.rate);
  }

  predicate AllAdmitted(ds: seq<Decision>) {
    forall i | 0 <= i < |ds| :: ds[i] == Admitted
  }

  /** The decisions and map left by `n` calls on `key` with the clock frozen
      at `now`: both clock reads of every call give `now`, so each call is the
      single-read step. */
  function Burst(keys: map<string, real>, key: string, limit: RateLimit, now: real, n: nat): (r: (seq<Decision>, map<string, real>))
    requires limit.Valid()
    ensures |r.0| == n
  {
    if n == 0 then ([], keys)
    else
      var before := Burst(keys, key, limit, now, n - 1);
      var step := StepOneRead(before.1, key, limit, now);
      (before.0 + [step.0], step.1)
  }

  /** A burst is a run of `n` identical calls. */
  lemma {:induction false} BurstIsRun(keys: map<string, real>, key: string, limit: RateLimit, now: real, n: nat)
    requires limit.Valid()
    ensures AllValid(Repeat(Arrival(key, limit, now, now), n))
    ensures Burst(keys, key, limit, now, n) == Run(keys, Repeat(Arrival(key, limit, now, now), n))
  {
    var a := Arrival(key, limit, now, now);
    if n == 0 {
      assert Repeat(a, 0) == [];
    } else {
      BurstIsRun(keys, key, limit, now, n - 1);
      assert Repeat(a, n) == Repeat(a, n - 1) + [a];
      RunSnoc(keys, Repeat(a, n - 1), a);
    }
  }

  /** Burst tolerance: for a key never seen, with the clock frozen,
      the first `j <= rate` calls are all admitted and leave the key's TAT `j`
      emission intervals ahead. */
  lemma {:induction false} BurstAdmits(keys: map<string, real>, key: string, limit: RateLimit, now: real, j: nat)
    requires limit.Valid() && key !in keys && j <= limit.rate
    ensures AllAdmitted(Burst(keys, key, limit, now, j).0)
    ensures j > 0 ==> key in Burst(keys, key, limit, now, j).1
    ensures j > 0 ==> Burst(keys, key, limit, now, j).1[key] == now + Ahead(limit, j)
  {
    if j > 0 {
      var before := Burst(keys, key, limit, now, j - 1);
      if j == 1 {
        BurstStep(before.1, key, limit, now, 1);
      } else {
        BurstAdmits(keys, key, limit, now, j - 1);
        BurstStep(before.1, key, limit, now, j);
      }
    }
  }

  /** The call after a full burst with the clock frozen is rejected, and the
      retry value it reports is the whole period. */
  lemma BurstThenRejected(keys: map<string, real>, key: string, limit: RateLimit, now: real)
    requires limit.Valid() && key !in keys
    ensures AllAdmitted(Burst(keys, key, limit, now, limit.rate + 1).0[..limit.rate])
    ensures Burst(keys, key, limit, now, limit.rate + 1).0[limit.rate] == Retry(limit.Period())
  {
    var n := limit.rate;
    BurstAdmits(keys, key, limit, now, n);
    BurstOverflow(Burst(keys, key, limit, now, n).1, key, limit, now);
  }

  /** One request per second, clock frozen: two calls give admit, then retry after one second. */
  lemma OnePerSecond(key: string, now: real)
    ensures Burst(map[], key, RateLimit(1, 1), now, 2).0 == [Admitted, Retry(1.0)]
  {
    BurstThenRejected(map[], key, RateLimit(1, 1), now);
  }

  /** Five per ten seconds, clock frozen: five calls are admitted, the sixth must wait ten seconds. */
  lemma FivePerTen(key: string, now: real)
    ensures Burst(map[], key, RateLimit(5, 10), now, 6).0
            == [Admitted, Admitted, Admitted, Admitted, Admitted, Retry(10.0)]
  {
    BurstThenRejected(map[], key, RateLimit(5, 10), now);
  }
}
