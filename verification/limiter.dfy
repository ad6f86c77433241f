/** The in-memory GCRA (Generic Cell Rate Algorithm) rate limiter of
    core/limiter.py: a rate limit descriptor, one GCRA step over the
    key -> theoretical arrival time (TAT) map, and the store that owns the map.
    Times are seconds on one real-valued clock that the caller passes in. */
module Limiter {

  /** `RateLimit(rate, per)`: at most `rate` requests every `per` seconds.
      The constructor accepts any integers; only the GCRA step needs them positive. */
  datatype RateLimit = RateLimit(rate: int, per: int) {

    predicate Valid() {
      rate > 0 && per > 0
    }

    /** The period as a duration in seconds. */
    function Period(): real {
      per as real
    }

    /** The emission interval: `rate` intervals fill exactly one period.
        Division by a zero rate raises in the source, hence the precondition. */
    function Inverse(): (r: real)
      requires rate != 0
      ensures r * (rate as real) == Period()
      ensures Valid() ==> 0.0 < r <= Period()
    {
      Period() / (rate as real)
    }

    /** The burst tolerance: one emission interval less than the period. */
    function MaxInterval(): (r: real)
      requires Valid()
      ensures 0.0 <= r < Period()
      ensures r == (rate - 1) as real * Inverse()
    {
      Period() - Inverse()
    }
  }

  /** What `Store.update` returns: `False` (admit) or the float `separation`. */
  datatype Decision = Admitted | Retry(after: real)

  function Max(a: real, b: real): real {
    if a >= b then a else b
  }

  /** The TAT read for `key`: the stored one, or `clock` for a key never seen. */
  function StoredTat(keys: map<string, real>, key: string, clock: real): (r: real)
    ensures key in keys ==> r == keys[key]
    ensures key !in keys ==> r == clock
  {
    if key in keys then keys[key] else clock
  }

  /** One GCRA step for `key`: the decision and the new map. `now` is the
      clock read by `update` itself; `read` is the later clock read inside
      `get_tat`, which only matters when `key` has no stored TAT. A request is
      rejected exactly when its separation (how far max(TAT, now) lies ahead
      of now) exceeds the burst tolerance; the retry value is that
      separation. A rejection leaves the map alone; an admission writes a TAT
      one emission interval past max(TAT, now) for `key` and for no other key. */
  function Step(keys: map<string, real>, key: string, limit: RateLimit, now: real, read: real): (r: (Decision, map<string, real>))
    requires limit.Valid()
    ensures r.0.Admitted? <==> Max(StoredTat(keys, key, read), now) - now <= limit.MaxInterval()
    ensures r.0.Retry? ==> r.1 == keys && r.0.after == Max(StoredTat(keys, key, read), now) - now
    ensures r.0.Retry? ==> r.0.after > limit.MaxInterval() && r.0.after > 0.0
    ensures r.0.Retry? && key in keys ==> r.0.after == keys[key] - now
    ensures r.0.Admitted? ==> key in r.1 && r.1[key] == Max(StoredTat(keys, key, read), now) + limit.Inverse()
    ensures r.0.Admitted? ==> r.1[key] > now && (key in keys ==> r.1[key] > keys[key])
    ensures r.1.Keys == keys.Keys + {key} || r.1 == keys
    ensures r.1 - {key} == keys - {key}
  {
    var tat := Max(StoredTat(keys, key, read), now);
    var separation := tat - now;
    if separation > limit.MaxInterval() then
      (Retry(separation), keys)
    else
      (Admitted, keys[key := Max(tat, now) + limit.Inverse()])
  }

  /** The second clock read only matters for a key with no stored TAT. */
  lemma ReadMattersOnlyForNewKeys(keys: map<string, real>, key: string, limit: RateLimit, now: real, read1: real, read2: real)
    requires limit.Valid() && key in keys
    ensures Step(keys, key, limit, now, read1) == Step(keys, key, limit, now, read2)
  {
  }

  /** The step with a single clock read: `get_tat` defaults to the same
      instant `update` compares against. A key never seen is then admitted at
      every valid rate; for a stored key it is the step of the source. */
  function StepOneRead(keys: map<string, real>, key: string, limit: RateLimit, now: real): (r: (Decision, map<string, real>))
    requires limit.Valid()
    ensures key !in keys ==> r == (Admitted, keys[key := now + limit.Inverse()])
    ensures key in keys ==> forall read :: r == Step(keys, key, limit, now, read)
  {
    Step(keys, key, limit, now, now)
  }

  /** The store of core/limiter.py: one map from key to TAT, never pruned. */
  class Store {
    var keys: map<string, real>

    constructor()
      ensures keys == map[]
    {
      keys := map[];
    }

    /** `get_tat`: the stored TAT, defaulting to the clock value `clock`. */
    function GetTat(key: string, clock: real): (r: real)
      reads this
      ensures key in keys ==> r == keys[key]
      ensures key !in keys ==> r == clock
    {
      StoredTat(keys, key, clock)
    }

    /** `set_tat`: overwrite one entry. */
    method SetTat(key: string, tat: real)
      modifies this
      ensures keys == old(keys)[key := tat]
    {
      keys := keys[key := tat];
    }

    /** `update`: read, decide, and on admission write back, as `Step` says.
        `now` is its own clock read, `read` the one `get_tat` makes. */
    method Update(key: string, limit: RateLimit, now: real, read: real) returns (d: Decision)
      requires limit.Valid()
      modifies this
      ensures (d, keys) == Step(old(keys), key, limit, now, read)
      ensures d.Retry? ==> keys == old(keys) && d.after > limit.MaxInterval()
      ensures d.Admitted? ==> keys == old(keys)[key := keys[key]] && keys[key] > now
    {
      var tat := Max(GetTat(key, read), now);
      var separation := tat - now;
      var maxInterval := limit.Period() - limit.Inverse();
      if separation > maxInterval {
        return Retry(separation);
      }
      var newTat := Max(tat, now) + limit.Inverse();
      SetTat(key, newTat);
      return Admitted;
    }
  }

  /** A rejection of a stored key tells the client to wait `after` seconds;
      waiting exactly `after - MaxInterval()` seconds is already enough and
      waiting any less is not, so the reported value overstates the wait by
      the burst tolerance. */
  lemma EarliestAdmission(keys: map<string, real>, key: string, limit: RateLimit, now: real, read: real, wait: real, read2: real)
    requires limit.Valid() && wait >= 0.0 && key in keys
    requires Step(keys, key, limit, now, read).0.Retry?
    ensures Step(keys, key, limit, now + wait, read2).0.Admitted? <==>
            wait >= Step(keys, key, limit, now, read).0.after - limit.MaxInterval()
  {
  }

  /** Waiting the reported retry time always gets a stored key admitted. */
  lemma RetryThenAdmitted(keys: map<string, real>, key: string, limit: RateLimit, now: real, read: real, read2: real)
    requires limit.Valid() && key in keys
    requires Step(keys, key, limit, now, read).0.Retry?
    ensures Step(keys, key, limit, now + Step(keys, key, limit, now, read).0.after, read2).0 == Admitted
  {
    var r := Step(keys, key, limit, now, read).0.after;
    EarliestAdmission(keys, key, limit, now, read, r, read2);
  }

  /** A key never seen is admitted exactly when the gap between the two clock
      reads fits the burst tolerance, and its TAT becomes one emission
      interval past the later of the two reads. */
  lemma FreshKeyAdmitted(keys: map<string, real>, key: string, limit: RateLimit, now: real, read: real)
    requires limit.Valid() && key !in keys && read - now <= limit.MaxInterval()
    ensures Step(keys, key, limit, now, read) == (Admitted, keys[key := Max(read, now) + limit.Inverse()])
  {
  }

  /** Otherwise the key is rejected with the gap itself as the retry value,
      and nothing is stored for it. */
  lemma FreshKeyRejected(keys: map<string, real>, key: string, limit: RateLimit, now: real, read: real)
    requires limit.Valid() && key !in keys && read - now > limit.MaxInterval()
    ensures Step(keys, key, limit, now, read) == (Retry(read - now), keys)
  {
  }

  /** At one request per period the tolerance is zero, so a key never seen is
      rejected whenever the clock moved at all between the two reads. */
  lemma FreshKeyRejectedAtRateOne(keys: map<string, real>, key: string, per: int, now: real, read: real)
    requires per > 0 && key !in keys && read > now
    ensures Step(keys, key, RateLimit(1, per), now, read) == (Retry(read - now), keys)
  {
    assert RateLimit(1, per).MaxInterval() == 0.0;
  }

  /** Two worked emission intervals: 5 per 10 seconds and 1 per second. */
  lemma InverseExamples()
    ensures RateLimit(5, 10).Inverse() == 2.0
    ensures RateLimit(1, 1).Inverse() == 1.0
  {
  }
}
