/** The part of a Redis server that the rate limiters talk to: integer counters with an
    optional deadline. Each command is a function on the stored keys; `CounterServer` is the
    object that holds them. Time is an exact integer, and a key is gone once `now >= deadline`. */
module RedisCounters {
  import opened Wrappers

  datatype Counter = Counter(count: int, deadline: Option<int>)

  type Counters = map<string, Counter>

  predicate Live(s: Counters, key: string, now: int) {
    key in s && (s[key].deadline.Some? ==> now < s[key].deadline.value)
  }

  // INCR: creates the key with 1; an existing key keeps its deadline.
  function Incr(s: Counters, key: string, now: int): Counters {
    if Live(s, key, now) then s[key := s[key].(count := s[key].count + 1)]
    else s[key := Counter(1, None)]
  }

  function Count(s: Counters, key: string, now: int): int {
    if Live(s, key, now) then s[key].count else 0
  }

  // EXPIRE: no effect on a missing key; a time to live that is not positive deletes the key.
  function Expire(s: Counters, key: string, ttl: int, now: int): Counters {
    if !Live(s, key, now) || ttl <= 0 then s - {key}
    else s[key := s[key].(deadline := Some(now + ttl))]
  }

  // TTL: -2 for a missing key, -1 for a key without a deadline.
  function Ttl(s: Counters, key: string, now: int): int {
    if !Live(s, key, now) then -2
    else if s[key].deadline.None? then -1
    else s[key].deadline.value - now
  }

  // The script of `rate_limit_incr`: INCR, EXPIRE when the count is 1, TTL, all in one step.
  function RateLimitIncr(s: Counters, key: string, window: int, now: int): Counters {
    var counted := Incr(s, key, now);
    if Count(counted, key, now) == 1 then Expire(counted, key, window, now) else counted
  }

  class CounterServer {
    var counters: Counters

    constructor ()
      ensures counters == map[]
    {
      counters := map[];
    }

    method IncrCommand(key: string, now: int) returns (value: int)
      modifies this
      ensures counters == Incr(old(counters), key, now)
      ensures value == Count(counters, key, now)
    {
      if Live(counters, key, now) {
        counters := counters[key := counters[key].(count := counters[key].count + 1)];
      } else {
        counters := counters[key := Counter(1, None)];
      }
      value := counters[key].count;
    }

    method ExpireCommand(key: string, ttl: int, now: int)
      modifies this
      ensures counters == Expire(old(counters), key, ttl, now)
      ensures ttl <= 0 ==> key !in counters
    {
      if Live(counters, key, now) && 0 < ttl {
        counters := counters[key := counters[key].(deadline := Some(now + ttl))];
      } else {
        counters := counters - {key};
      }
    }

    method TtlCommand(key: string, now: int) returns (ttl: int)
      ensures ttl == Ttl(counters, key, now)
      ensures key !in counters ==> ttl == -2
      ensures key in counters ==>
                match counters[key].deadline
                case None => ttl == -1
                case Some(d) => ttl == if now < d then d - now else -2
    {
      if !Live(counters, key, now) {
        ttl := -2;
      } else {
        ttl := match counters[key].deadline case None => -1 case Some(d) => d - now;
      }
    }

    method GetCommand(key: string, now: int) returns (value: Option<int>)
      ensures value == if Live(counters, key, now) then Some(counters[key].count) else None
    {
      value := None;
      if Live(counters, key, now) {
        value := Some(counters[key].count);
      }
    }

    method DeleteCommand(key: string)
      modifies this
      ensures counters == old(counters) - {key}
    {
      counters := counters - {key};
    }

    method RateLimitScript(key: string, window: int, now: int) returns (count: int, ttl: int)
      modifies this
      ensures counters == RateLimitIncr(old(counters), key, window, now)
      ensures count == Count(Incr(old(counters), key, now), key, now)
      ensures ttl == Ttl(counters, key, now)
    {
      count := IncrCommand(key, now);
      if count == 1 {
        ExpireCommand(key, window, now);
      }
      ttl := TtlCommand(key, now);
    }
  }
}
