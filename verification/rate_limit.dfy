/** The per-key token bucket, refilled lazily on each call. Times are seconds. */
module RateLimit {

  datatype Bucket = Bucket(tokens: real, last: real)

  datatype Call = Call(key: string, at: real)

  type Buckets = map<string, Bucket>

  datatype Params = Params(rate: real, burst: real) {
    /** What NewLimiter guarantees. */
    predicate Valid() { rate > 0.0 && burst > 0.0 }
  }

  function Min(a: real, b: real): real { if a <= b then a else b }

  /** The tokens that flow in over a time. */
  function Flow(rate: real, elapsed: real): real { elapsed * rate }

  /** The tokens a bucket holds once refilled to instant `now`. */
  function Level(p: Params, b: Bucket, now: real): real { Min(p.burst, b.tokens + Flow(p.rate, now - b.last)) }

  function Answer(p: Params, bs: Buckets, c: Call): bool {
    c.key !in bs || Level(p, bs[c.key], c.at) >= 1.0
  }

  function Next(p: Params, bs: Buckets, c: Call): Buckets {
    var level := if c.key in bs then Level(p, bs[c.key], c.at) else p.burst;
    bs[c.key := Bucket(if Answer(p, bs, c) then level - 1.0 else level, c.at)]
  }

  class Limiter {
    const p: Params
    var buckets: Buckets

    constructor (rate: real, burst: real)
      ensures p.Valid() && buckets == map[]
      ensures p.rate == if rate <= 0.0 then 10.0 else rate
      ensures p.burst == if burst <= 0.0 then p.rate else burst
    {
      var r := if rate <= 0.0 then 10.0 else rate;
      p := Params(r, if burst <= 0.0 then r else burst);
      buckets := map[];
    }

    method Allow(key: string, now: real) returns (ok: bool)
      modifies this
      ensures ok == Answer(p, old(buckets), Call(key, now))
      ensures buckets == Next(p, old(buckets), Call(key, now))
      ensures key !in old(buckets) ==> ok && buckets == old(buckets)[key := Bucket(p.burst - 1.0, now)]
      ensures key in old(buckets) ==>
                var b := old(buckets)[key]; var filled := b.tokens + (now - b.last) * p.rate;
                var level := if filled > p.burst then p.burst else filled;
                ok == (level >= 1.0) && buckets == old(buckets)[key := Bucket(if ok then level - 1.0 else level, now)]
    {
      if key !in buckets {
        buckets := buckets[key := Bucket(p.burst - 1.0, now)];
        return true;
      }
      var b := buckets[key];
      var elapsed := now - b.last;
      b := b.(tokens := b.tokens + elapsed * p.rate);
      if b.tokens > p.burst { b := b.(tokens := p.burst); }
      b := b.(last := now);
      assert b == Bucket(Level(p, old(buckets)[key], now), now);
      ghost var filled := old(buckets)[key].tokens + elapsed * p.rate;
      assert b == Bucket(if filled > p.burst then p.burst else filled, now);
      if b.tokens < 1.0 {
        buckets := buckets[key := b];
        return false;
      }
      buckets := buckets[key := b.(tokens := b.tokens - 1.0)];
      ok := true;
    }
  }

  // ---- Sequences of calls ----

  function After(p: Params, calls: seq<Call>): Buckets {
    if calls == [] then map[] else Next(p, After(p, calls[..|calls| - 1]), calls[|calls| - 1])
  }

  /** Is the last of these calls allowed? */
  predicate LastAllowed(p: Params, calls: seq<Call>)
    requires calls != []
  {
    Answer(p, After(p, calls[..|calls| - 1]), calls[|calls| - 1])
  }

  predicate Ordered(calls: seq<Call>) {
    forall i, k :: 0 <= i <= k < |calls| ==> calls[i].at <= calls[k].at
  }

  /** Calls for `key` allowed within the closed interval [s, t]. */
  function AllowedIn(p: Params, calls: seq<Call>, key: string, s: real, t: real): nat {
    if calls == [] then 0
    else
      var c := calls[|calls| - 1];
      AllowedIn(p, calls[..|calls| - 1], key, s, t)
      + if c.key == key && s <= c.at <= t && LastAllowed(p, calls) then 1 else 0
  }

  /** Potential argument: what was allowed since `s` plus what is left never exceeds a full
      bucket plus what flowed in since. */
  predicate Bounded(p: Params, b: Bucket, count: nat, s: real, t: real) {
    && 0.0 <= b.tokens <= p.burst
    && (if b.last < s then count == 0
        else if b.last <= t then count as real + b.tokens <= p.burst + Flow(p.rate, b.last - s)
        else count as real <= p.burst + Flow(p.rate, t - s))
  }

  lemma Refill(rate: real, a: real, b: real, c: real)
    requires rate > 0.0 && a <= b <= c
    ensures Flow(rate, b - a) + Flow(rate, c - b) == Flow(rate, c - a)
    ensures Flow(rate, a - a) == 0.0 && Flow(rate, b - a) >= 0.0 && Flow(rate, c - b) >= 0.0
  {
  }

  lemma FlowIsProduct(rate: real, elapsed: real)
    ensures Flow(rate, elapsed) == rate * elapsed
  {
  }

  lemma LevelRange(p: Params, b: Bucket, x: real)
    requires p.Valid() && p.burst >= 1.0 && 0.0 <= b.tokens <= p.burst && b.last <= x
    ensures 0.0 <= Level(p, b, x) <= p.burst && Level(p, b, x) <= b.tokens + Flow(p.rate, x - b.last)
  {
    hide Flow;
    Refill(p.rate, b.last, b.last, x);
  }

  lemma BoundedCount(p: Params, b: Bucket, count: nat, s: real, t: real)
    requires p.Valid() && s <= t && Bounded(p, b, count, s, t)
    ensures count as real <= p.burst + Flow(p.rate, t - s)
  {
    hide Flow;
    Refill(p.rate, s, s, t);
    if s <= b.last <= t { Refill(p.rate, s, b.last, t); }
  }

  lemma BoundedStep(p: Params, b: Bucket, count: nat, s: real, t: real, x: real)
    requires p.Valid() && p.burst >= 1.0 && s <= t && b.last <= x && Bounded(p, b, count, s, t)
    ensures var level := Level(p, b, x); var ok := level >= 1.0;
            Bounded(p, Bucket(if ok then level - 1.0 else level, x), count + (if ok && s <= x <= t then 1 else 0), s, t)
  {
    hide Flow, Level;
    LevelRange(p, b, x);
    if x > t {
      BoundedCount(p, b, count, s, t);
    } else if s <= b.last {
      Refill(p.rate, s, b.last, x);
    } else if s <= x {
      Refill(p.rate, s, s, x);
    }
  }

  lemma FirstCall(p: Params, s: real, t: real, x: real)
    requires p.Valid() && p.burst >= 1.0 && s <= t
    ensures Bounded(p, Bucket(p.burst - 1.0, x), if s <= x <= t then 1 else 0, s, t)
  {
    hide Flow;
    Refill(p.rate, s, s, t);
    if s <= x { Refill(p.rate, s, s, x); }
  }

  lemma {:induction false} BoundedRun(p: Params, calls: seq<Call>, key: string, s: real, t: real)
    requires p.Valid() && p.burst >= 1.0 && s <= t && Ordered(calls)
    ensures var bs := After(p, calls); var count := AllowedIn(p, calls, key, s, t);
            if key in bs then
              Bounded(p, bs[key], count, s, t) && calls != [] && bs[key].last <= calls[|calls| - 1].at
            else count == 0
  {
    if calls != [] {
      var before, c := calls[..|calls| - 1], calls[|calls| - 1];
      BoundedRun(p, before, key, s, t);
      var bs := After(p, before);
      if c.key == key {
        if key in bs {
          assert before[|before| - 1].at <= c.at;
          BoundedStep(p, bs[key], AllowedIn(p, before, key, s, t), s, t, c.at);
        } else {
          FirstCall(p, s, t, c.at);
        }
      }
    }
  }

  lemma AtMostFlow(p: Params, calls: seq<Call>, key: string, s: real, t: real)
    requires p.Valid() && p.burst >= 1.0 && s <= t && Ordered(calls)
    ensures AllowedIn(p, calls, key, s, t) as real <= p.burst + Flow(p.rate, t - s)
  {
    BoundedRun(p, calls, key, s, t);
    var bs := After(p, calls);
    hide After, AllowedIn, Bounded, Flow;
    if key in bs { BoundedCount(p, bs[key], AllowedIn(p, calls, key, s, t), s, t); } else { Refill(p.rate, s, s, t); }
  }

  lemma AtMost(p: Params, calls: seq<Call>, key: string, s: real, t: real)
    requires p.Valid() && p.burst >= 1.0 && s <= t && Ordered(calls)
    ensures AllowedIn(p, calls, key, s, t) as real <= p.burst + p.rate * (t - s)
  {
    hide After, AllowedIn, Ordered, Flow;
    AtMostFlow(p, calls, key, s, t);
    FlowIsProduct(p.rate, t - s);
  }

  /** In every interval at most burst + rate * length calls of one key are allowed, over all
      sequences of calls, if and only if the burst is at least one. */
  lemma WindowBoundExactly(p: Params)
    requires p.Valid()
    ensures (forall calls: seq<Call>, key: string, s: real, t: real :: Ordered(calls) && s <= t ==>
               AllowedIn(p, calls, key, s, t) as real <= p.burst + p.rate * (t - s))
            <==> p.burst >= 1.0
  {
    if p.burst >= 1.0 {
      forall calls: seq<Call>, key: string, s: real, t: real | Ordered(calls) && s <= t
        ensures AllowedIn(p, calls, key, s, t) as real <= p.burst + p.rate * (t - s)
      {
        AtMost(p, calls, key, s, t);
      }
    } else {
      var one := [Call("k", 0.0)];
      assert one[..0] == [];
      assert AllowedIn(p, one, "k", 0.0, 0.0) == 1;
    }
  }

  /** A call that follows a refused one of its key at least 1 / rate later, with no other call
      of the key in between, is allowed. */
  lemma WaitingHelps(p: Params, calls: seq<Call>, later: Call)
    requires p.Valid() && p.burst >= 1.0 && Ordered(calls) && calls != [] && !LastAllowed(p, calls)
    requires var c := calls[|calls| - 1]; later.key == c.key && p.rate * (later.at - c.at) >= 1.0
    ensures Answer(p, After(p, calls), later)
  {
    var c := calls[|calls| - 1];
    hide After, Ordered, LastAllowed, Flow, Level;
    FlowIsProduct(p.rate, later.at - c.at);
    RefusedLevel(p, calls);
    AfterWaiting(p, After(p, calls)[c.key], later.at);
  }

  lemma RefusedLevel(p: Params, calls: seq<Call>)
    requires p.Valid() && p.burst >= 1.0 && Ordered(calls) && calls != [] && !LastAllowed(p, calls)
    ensures var c, bs := calls[|calls| - 1], After(p, calls); c.key in bs && bs[c.key].last == c.at && bs[c.key].tokens >= 0.0
  {
    hide Flow, Level;
    var before, c := calls[..|calls| - 1], calls[|calls| - 1];
    BoundedRun(p, before, c.key, c.at, c.at);
    assert before != [] ==> before[|before| - 1].at <= c.at;
    LevelRange(p, After(p, before)[c.key], c.at);
  }

  lemma AfterWaiting(p: Params, b: Bucket, now: real)
    requires p.burst >= 1.0 && b.tokens >= 0.0 && Flow(p.rate, now - b.last) >= 1.0
    ensures Level(p, b, now) >= 1.0
  {
    hide Flow;
  }

  // ---- Refused calls leave no trace ----

  /** The calls that were allowed, in order. */
  function Kept(p: Params, calls: seq<Call>): seq<Call> {
    if calls == [] then []
    else Kept(p, calls[..|calls| - 1]) + if LastAllowed(p, calls) then [calls[|calls| - 1]] else []
  }

  /** Bucket `a` is bucket `b` refilled to a later instant. */
  predicate Refreshed(p: Params, a: Bucket, b: Bucket) {
    b.last <= a.last && a.tokens == Level(p, b, a.last)
  }

  lemma SameLevel(p: Params, a: Bucket, b: Bucket, x: real)
    requires p.Valid() && Refreshed(p, a, b) && a.last <= x
    ensures Level(p, a, x) == Level(p, b, x)
  {
    hide Flow;
    Refill(p.rate, b.last, a.last, x);
    Refill(p.rate, b.last, b.last, a.last);
    Refill(p.rate, b.last, b.last, x);
    Refill(p.rate, a.last, a.last, x);
  }

  /** All buckets of `a` are those of `b`, refilled, none later than `now`. */
  ghost predicate AllRefreshed(p: Params, a: Buckets, b: Buckets, now: real) {
    a.Keys == b.Keys && forall k <- a :: Refreshed(p, a[k], b[k]) && a[k].last <= now
  }

  lemma RefusalsStep(p: Params, a: Buckets, b: Buckets, now: real, c: Call)
    requires p.Valid() && AllRefreshed(p, a, b, now) && now <= c.at
    ensures Answer(p, a, c) == Answer(p, b, c)
    ensures AllRefreshed(p, Next(p, a, c), if Answer(p, a, c) then Next(p, b, c) else b, c.at)
  {
    if c.key in a {
      SameLevel(p, a[c.key], b[c.key], c.at);
      Refill(p.rate, c.at, c.at, c.at);
    }
    if Answer(p, a, c) {
      var t := Next(p, a, c)[c.key];
      assert Next(p, b, c)[c.key] == t;
      FullRefresh(p, t, c.at);
      if c.key in a { LevelCapped(p, a[c.key], c.at); }
    }
  }

  lemma LevelCapped(p: Params, b: Bucket, x: real)
    ensures Level(p, b, x) <= p.burst
  {
  }

  lemma FullRefresh(p: Params, b: Bucket, x: real)
    requires b.last == x
    ensures Level(p, b, x) == Min(p.burst, b.tokens)
  {
  }

  lemma {:induction false} RefusalsTransparent(p: Params, calls: seq<Call>)
    requires p.Valid() && Ordered(calls)
    ensures AllRefreshed(p, After(p, calls), After(p, Kept(p, calls)),
                         if calls == [] then 0.0 else calls[|calls| - 1].at)
  {
    if calls != [] {
      var before, c := calls[..|calls| - 1], calls[|calls| - 1];
      RefusalsTransparent(p, before);
      var now := if before == [] then 0.0 else before[|before| - 1].at;
      if before == [] {
        assert After(p, before) == map[];
        RefusalsStep(p, map[], map[], c.at, c);
      } else {
        RefusalsStep(p, After(p, before), After(p, Kept(p, before)), now, c);
      }
      if LastAllowed(p, calls) {
        var kept := Kept(p, before) + [c];
        assert kept[..|kept| - 1] == Kept(p, before);
      } else {
        assert Kept(p, calls) == Kept(p, before);
      }
    }
  }

  /** Delete every refused call: a further call gets the same answer either way. */
  lemma DeletingRefusals(p: Params, calls: seq<Call>, next: Call)
    requires p.Valid() && Ordered(calls + [next])
    ensures LastAllowed(p, calls + [next]) == LastAllowed(p, Kept(p, calls) + [next])
  {
    var all := calls + [next];
    assert all[..|calls|] == calls;
    assert (Kept(p, calls) + [next])[..|Kept(p, calls)|] == Kept(p, calls);
    OrderedPrefix(calls, next);
    RefusalsTransparent(p, calls);
    if calls == [] {
      assert After(p, calls) == map[];
    } else {
      assert all[|calls| - 1].at <= all[|calls|].at;
      RefusalsStep(p, After(p, calls), After(p, Kept(p, calls)), calls[|calls| - 1].at, next);
    }
  }

  lemma OrderedPrefix(calls: seq<Call>, next: Call)
    requires Ordered(calls + [next])
    ensures Ordered(calls)
  {
    assert forall i :: 0 <= i < |calls| ==> (calls + [next])[i] == calls[i];
  }

  /** Without the refused calls, every call left is still allowed. */
  lemma {:induction false} KeptAreAllowed(p: Params, calls: seq<Call>, n: nat)
    requires p.Valid() && Ordered(calls) && 0 < n <= |Kept(p, calls)|
    ensures LastAllowed(p, Kept(p, calls)[..n])
  {
    var before, c := calls[..|calls| - 1], calls[|calls| - 1];
    assert before + [c] == calls;
    if LastAllowed(p, calls) && n == |Kept(p, calls)| {
      assert Kept(p, calls)[..n] == Kept(p, before) + [c];
      DeletingRefusals(p, before, c);
    } else {
      assert Kept(p, calls)[..n] == Kept(p, before)[..n];
      KeptAreAllowed(p, before, n);
    }
  }
}
