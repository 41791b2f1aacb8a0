/** RedisRateLimitStore: the script on the Redis keys, the key names, and what hit and reset make of it. */
module RateLimitStores {

  import opened RateLimits

  datatype Entry = Entry(value: nat, until: int)

  type Redis = map<string, Entry>

  datatype Result = Result(allowed: bool, backendAvailable: bool, remaining: nat, retryAfterMs: int)

  function CounterKey(prefix: string, key: string, rule: Rule): string {
    if key == "" || rule.name == "" then "" else prefix + "cnt:" + rule.name + ":" + key
  }

  function BlockKey(prefix: string, key: string, rule: Rule): string {
    if key == "" || rule.name == "" then "" else prefix + "blk:" + rule.name + ":" + key
  }

  /** What the two keys say about one caller under one rule. */
  function MeterOf(redis: Redis, counter: string, block: string): Meter {
    Meter(if counter in redis then redis[counter].value else 0,
          if counter in redis then redis[counter].until else 0,
          if block in redis then redis[block].until else 0)
  }

  /** The key has not expired. */
  predicate Alive(redis: Redis, key: string, now: nat) {
    key in redis && now < redis[key].until
  }

  // ---------------------------------------------------------------------------------------------
  // Names never meet

  predicate Plain(rule: Rule) {
    rule.name != "" && ':' !in rule.name
  }

  lemma ShorterNameSplitsOther(a: string, x: string, b: string, y: string)
    requires |a| < |b| && a + ":" + x == b + ":" + y
    ensures ':' in b
  {
    assert b[|a|] == (b + ":" + y)[|a|] == (a + ":" + x)[|a|] == ':';
  }

  lemma NamesDiffer(a: string, x: string, b: string, y: string)
    requires ':' !in a && ':' !in b
    ensures a + ":" + x == b + ":" + y <==> a == b && x == y
  {
    if a + ":" + x == b + ":" + y {
      if |a| < |b| {
        ShorterNameSplitsOther(a, x, b, y);
      } else if |b| < |a| {
        ShorterNameSplitsOther(b, y, a, x);
      } else {
        var whole := a + ":" + x;
        assert a == whole[..|a|] == b && x == whole[|a| + 1..] == y;
      }
    }
  }

  lemma SamePrefix(prefix: string, a: string, b: string)
    ensures prefix + a == prefix + b <==> a == b
  {
    if prefix + a == prefix + b {
      assert a == (prefix + a)[|prefix|..] == (prefix + b)[|prefix|..] == b;
    }
  }

  /** A counter key is never a block key. */
  lemma KindsAreSeparate(prefix: string, key: string, rule: Rule, key2: string, rule2: Rule)
    requires key != "" && key2 != "" && rule.name != "" && rule2.name != ""
    ensures CounterKey(prefix, key, rule) != BlockKey(prefix, key2, rule2)
  {
    var tail, tail2 := rule.name + ":" + key, rule2.name + ":" + key2;
    assert CounterKey(prefix, key, rule) == prefix + ("cnt:" + tail);
    assert BlockKey(prefix, key2, rule2) == prefix + ("blk:" + tail2);
    SamePrefix(prefix, "cnt:" + tail, "blk:" + tail2);
    assert ("cnt:" + tail)[0] != ("blk:" + tail2)[0];
  }

  /** Two callers under colon-free rule names share a key only when caller and rule name are the same. */
  lemma KeysAreSeparate(prefix: string, key: string, rule: Rule, key2: string, rule2: Rule)
    requires key != "" && key2 != "" && Plain(rule) && Plain(rule2)
    ensures CounterKey(prefix, key, rule) == CounterKey(prefix, key2, rule2) <==> key == key2 && rule.name == rule2.name
    ensures BlockKey(prefix, key, rule) == BlockKey(prefix, key2, rule2) <==> key == key2 && rule.name == rule2.name
  {
    var tail, tail2 := rule.name + ":" + key, rule2.name + ":" + key2;
    assert CounterKey(prefix, key, rule) == prefix + ("cnt:" + tail);
    assert CounterKey(prefix, key2, rule2) == prefix + ("cnt:" + tail2);
    assert BlockKey(prefix, key, rule) == prefix + ("blk:" + tail);
    assert BlockKey(prefix, key2, rule2) == prefix + ("blk:" + tail2);
    SamePrefix(prefix, "cnt:" + tail, "cnt:" + tail2);
    SamePrefix(prefix, "blk:" + tail, "blk:" + tail2);
    SamePrefix("cnt:", tail, tail2);
    SamePrefix("blk:", tail, tail2);
    NamesDiffer(rule.name, key, rule2.name, key2);
  }

  /** The rule limits this caller. */
  predicate Applies(key: string, rule: Rule) {
    key != "" && rule.name != "" && Effective(rule)
  }

  // ---------------------------------------------------------------------------------------------
  // The class

  class RedisRateLimitStore {
    const prefix: string
    const hasClient: bool
    var redis: Redis

    constructor (prefix: string, hasClient: bool)
      ensures this.prefix == prefix && this.hasClient == hasClient && redis == map[]
    {
      this.prefix, this.hasClient, redis := prefix, hasClient, map[];
    }

    /** PTTL: what is left of the key's time, or -2 when it is gone. */
    function Pttl(key: string, now: nat): (ttl: int)
      reads this
      ensures ttl > 0 <==> Alive(redis, key, now)
      ensures ttl > 0 ==> ttl == redis[key].until - now
    {
      if Alive(redis, key, now) then redis[key].until - now else -2
    }

    /** The Lua script, run by Redis without interruption: it is Hit on the meter of its two keys, and touches no
        other. */
    method EvalHit(counter: string, block: string, rule: Rule, now: nat) returns (value: int)
      requires counter != block && Effective(rule)
      modifies this
      ensures (MeterOf(redis, counter, block), value) == Hit(MeterOf(old(redis), counter, block), rule, now)
      ensures redis - {counter, block} == old(redis) - {counter, block}
      ensures var used := if Alive(old(redis), counter, now) then old(redis)[counter].value else 0;
              && (value >= 0 <==> !Alive(old(redis), block, now) && used < rule.maxRequests)
              && (Alive(old(redis), block, now) ==> redis == old(redis) && now - value == old(redis)[block].until)
              && (!Alive(old(redis), block, now) ==>
                    && Alive(redis, counter, now) && redis[counter].value == used + 1
                    && redis[counter].until ==
                         if Alive(old(redis), counter, now) then old(redis)[counter].until else now + rule.windowMs)
              && (!Alive(old(redis), block, now) && value < 0 ==>
                    if rule.blockMs > 0
                    then Alive(redis, block, now) && redis[block].until == now - value == now + rule.blockMs
                    else redis[counter].until == now - value)
    {
      var blocked := Pttl(block, now);
      if blocked > 0 {
        return -blocked;
      }
      var count := if Pttl(counter, now) > 0 then redis[counter].value + 1 else 1;
      var until := if Pttl(counter, now) > 0 then redis[counter].until else now + rule.windowMs;
      redis := redis[counter := Entry(count, until)];
      if count <= rule.maxRequests {
        return count;
      }
      if rule.blockMs > 0 {
        redis := redis[block := Entry(1, now + rule.blockMs)];
        return -rule.blockMs;
      }
      var ttl := Pttl(counter, now);
      if ttl <= 0 {
        ttl := rule.windowMs;
      }
      value := -ttl;
    }

    /** Without a backend, or with a rule or caller that says nothing, everything is allowed and nothing changes;
        otherwise the answer is the script's, with a wait that is positive. */
    method HitKey(key: string, rule: Rule, now: nat, backendUp: bool) returns (r: Result)
      modifies this
      ensures !hasClient || !backendUp || !Applies(key, rule) ==> r.allowed && redis == old(redis)
      ensures r.backendAvailable <==> hasClient && (backendUp || !Applies(key, rule))
      ensures hasClient && backendUp && Applies(key, rule) ==>
                var c, b := CounterKey(prefix, key, rule), BlockKey(prefix, key, rule);
                var (m, value) := Hit(MeterOf(old(redis), c, b), rule, now);
                && MeterOf(redis, c, b) == m && redis - {c, b} == old(redis) - {c, b}
                && (r.allowed <==> value >= 0)
                && (r.allowed ==> r.remaining == rule.maxRequests - value)
                && (!r.allowed ==> r.retryAfterMs == -value > 0)
      ensures hasClient && backendUp && Applies(key, rule) ==>
                var c, b := CounterKey(prefix, key, rule), BlockKey(prefix, key, rule);
                var used := if Alive(old(redis), c, now) then old(redis)[c].value else 0;
                && (r.allowed <==> !Alive(old(redis), b, now) && used < rule.maxRequests)
                && (r.allowed ==> Alive(redis, c, now) && redis[c].value == used + 1 == rule.maxRequests - r.remaining)
                && (Alive(old(redis), b, now) ==> now + r.retryAfterMs == old(redis)[b].until)
    {
      if !hasClient {
        return Result(true, false, 0, 0);
      }
      if key == "" || rule.maxRequests == 0 || rule.windowMs <= 0 || rule.name == "" {
        return Result(true, true, 0, 0);
      }
      if !backendUp {
        return Result(true, false, 0, 0);
      }
      KindsAreSeparate(prefix, key, rule, key, rule);
      var value := EvalHit(CounterKey(prefix, key, rule), BlockKey(prefix, key, rule), rule, now);
      if value >= 0 {
        return Result(true, true, if value < rule.maxRequests then rule.maxRequests - value else 0, 0);
      }
      var retryAfterMs := -value;
      if retryAfterMs <= 0 {
        retryAfterMs := if rule.blockMs > 0 then rule.blockMs else rule.windowMs;
      }
      r := Result(false, true, 0, retryAfterMs);
    }

    /** After a reset the caller starts with a fresh meter. */
    method Reset(key: string, rule: Rule)
      modifies this
      ensures if !hasClient || key == "" || rule.name == "" then redis == old(redis)
              else var c, b := CounterKey(prefix, key, rule), BlockKey(prefix, key, rule);
                   MeterOf(redis, c, b) == FRESH && redis == old(redis) - {c, b}
    {
      if !hasClient || key == "" || rule.name == "" {
        return;
      }
      redis := redis - {CounterKey(prefix, key, rule)};
      redis := redis - {BlockKey(prefix, key, rule)};
    }
  }

  /** A hit or a reset of one caller leaves every other caller's meter as it was. */
  lemma CallersAreIsolated(before: Redis, after: Redis, prefix: string, key: string, rule: Rule, key2: string,
                           rule2: Rule)
    requires key != "" && key2 != "" && Plain(rule) && Plain(rule2) && (key != key2 || rule.name != rule2.name)
    requires var c, b := CounterKey(prefix, key, rule), BlockKey(prefix, key, rule);
             after - {c, b} == before - {c, b}
    ensures var c2, b2 := CounterKey(prefix, key2, rule2), BlockKey(prefix, key2, rule2);
            MeterOf(after, c2, b2) == MeterOf(before, c2, b2)
  {
    KeysAreSeparate(prefix, key, rule, key2, rule2);
    KindsAreSeparate(prefix, key, rule, key2, rule2);
    KindsAreSeparate(prefix, key2, rule2, key, rule);
    var c, b := CounterKey(prefix, key, rule), BlockKey(prefix, key, rule);
    var c2, b2 := CounterKey(prefix, key2, rule2), BlockKey(prefix, key2, rule2);
    assert c2 in after - {c, b} <==> c2 in after;
    assert b2 in after - {c, b} <==> b2 in after;
    assert c2 in before - {c, b} <==> c2 in before;
    assert b2 in before - {c, b} <==> b2 in before;
    assert c2 in after ==> (after - {c, b})[c2] == after[c2];
    assert b2 in after ==> (after - {c, b})[b2] == after[b2];
  }
}
