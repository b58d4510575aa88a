/** The sliding-window rate limiter: pruned deques against the full history of admitted charges.
    Times are whole milliseconds. */
module RateLimits {
  import opened Foundations

  datatype Dimension = UserId | ProjectId | IpAddress

  datatype LimitKey = LimitKey(dimension: Dimension, value: string)

  datatype Limits = Limits(user: int, project: int, ip: int, windowSeconds: int)

  predicate Positive(l: Limits) {
    0 < l.user && 0 < l.project && 0 < l.ip && 0 < l.windowSeconds
  }

  function LimitOf(l: Limits, d: Dimension): int {
    match d
    case UserId => l.user
    case ProjectId => l.project
    case IpAddress => l.ip
  }

  function Window(l: Limits): int {
    l.windowSeconds * 1000
  }

  datatype Request = Request(user: Option<string>, project: Option<string>, ip: Option<string>, cost: int, now: int)

  function KeyFor(d: Dimension, value: Option<string>): seq<LimitKey> {
    if value.Some? && value.value != "" then [LimitKey(d, value.value)] else []
  }

  /** The keys a request is counted under, in the order they are checked. */
  function KeysOf(r: Request): seq<LimitKey> {
    KeyFor(UserId, r.user) + KeyFor(ProjectId, r.project) + KeyFor(IpAddress, r.ip)
  }

  type Deques = map<LimitKey, seq<int>>

  function DequeOf(events: Deques, k: LimitKey): seq<int> {
    if k in events then events[k] else []
  }

  /** Drop charges from the front while they are out of the window. */
  function Pruned(q: seq<int>, cutoff: int): seq<int> {
    if q != [] && q[0] <= cutoff then Pruned(q[1..], cutoff) else q
  }

  datatype Verdict =
    | BadCost
    | Unlimited
    | Admitted(limit: int, remaining: int, resetAt: int)
    | Limited(retryAfter: int, limit: int, dimension: Dimension)

  /** The seconds after which the oldest charge has left the window. */
  function RetryAfter(q: seq<int>, now: int, window: int): int {
    var retryAt := if q != [] then q[0] + window else now + 1000;
    Max(1, (retryAt - now + 999) / 1000)
  }

  /** Prune and test the keys in order, stopping at the first that is over its limit. */
  function Prepare(l: Limits, events: Deques, keys: seq<LimitKey>, cost: int, now: int): (Deques, Option<LimitKey>)
    decreases |keys|
  {
    if keys == [] then (events, None)
    else
      var q := Pruned(DequeOf(events, keys[0]), now - Window(l));
      var next := events[keys[0] := q];
      if |q| + cost > LimitOf(l, keys[0].dimension) then (next, Some(keys[0]))
      else Prepare(l, next, keys[1..], cost, now)
  }

  function Repeat(t: int, cost: int): seq<int> {
    if cost <= 0 then [] else Repeat(t, cost - 1) + [t]
  }

  function Charge(events: Deques, keys: seq<LimitKey>, cost: int, now: int): Deques
    decreases |keys|
  {
    if keys == [] then events
    else Charge(events[keys[0] := DequeOf(events, keys[0]) + Repeat(now, cost)], keys[1..], cost, now)
  }

  /** The whole of one check: the deques it leaves and what it answers. */
  function Decide(l: Limits, events: Deques, r: Request): (Deques, Verdict) {
    var keys := KeysOf(r);
    if r.cost <= 0 then (events, BadCost)
    else if keys == [] then (events, Unlimited)
    else
      var (prepared, over) := Prepare(l, events, keys, r.cost, r.now);
      if over.Some? then
        (prepared, Limited(RetryAfter(DequeOf(prepared, over.value), r.now, Window(l)),
                           LimitOf(l, over.value.dimension), over.value.dimension))
      else
        var charged := Charge(prepared, keys, r.cost, r.now);
        var q, limit := DequeOf(charged, keys[0]), LimitOf(l, keys[0].dimension);
        (charged, Admitted(limit, Max(0, limit - |q|), (if q != [] then q[0] else 0) + Window(l)))
  }

  class InMemoryRateLimiter {
    const limits: Limits
    var events: Deques

    constructor (limits: Limits)
      requires Positive(limits)
      ensures this.limits == limits && events == map[]
    {
      this.limits := limits;
      events := map[];
    }

    /** Pops expired charges off the front of one deque. */
    method Prune(k: LimitKey, cutoff: int)
      modifies this
      ensures events == old(events)[k := Pruned(DequeOf(old(events), k), cutoff)]
    {
      if k !in events {
        events := events[k := []];
      }
      ghost var before := old(events)[k := events[k]];
      while events[k] != [] && events[k][0] <= cutoff
        invariant k in events && events == before[k := events[k]]
        invariant Pruned(events[k], cutoff) == Pruned(DequeOf(old(events), k), cutoff)
        decreases |events[k]|
      {
        events := events[k := events[k][1..]];
      }
    }

    method PrepareAll(keys: seq<LimitKey>, cost: int, now: int) returns (over: Option<LimitKey>)
      modifies this
      ensures (events, over) == Prepare(limits, old(events), keys, cost, now)
    {
      var cutoff := now - Window(limits);
      for i := 0 to |keys|
        invariant Prepare(limits, events, keys[i..], cost, now) == Prepare(limits, old(events), keys, cost, now)
      {
        Prune(keys[i], cutoff);
        assert keys[i..][0] == keys[i] && keys[i..][1..] == keys[i + 1..];
        if |events[keys[i]]| + cost > LimitOf(limits, keys[i].dimension) {
          return Some(keys[i]);
        }
      }
      over := None;
    }

    method ChargeAll(keys: seq<LimitKey>, cost: int, now: int)
      modifies this
      ensures events == Charge(old(events), keys, cost, now)
    {
      for i := 0 to |keys|
        invariant Charge(events, keys[i..], cost, now) == Charge(old(events), keys, cost, now)
      {
        assert keys[i..][0] == keys[i] && keys[i..][1..] == keys[i + 1..];
        events := events[keys[i] := DequeOf(events, keys[i]) + Repeat(now, cost)];
      }
    }

    method Check(r: Request) returns (verdict: Verdict)
      modifies this
      ensures (events, verdict) == Decide(limits, old(events), r)
    {
      if r.cost <= 0 {
        return BadCost;
      }
      var keys := KeysOf(r);
      if keys == [] {
        return Unlimited;
      }
      var over := PrepareAll(keys, r.cost, r.now);
      if over.Some? {
        var k := over.value;
        return Limited(RetryAfter(DequeOf(events, k), r.now, Window(limits)),
                       LimitOf(limits, k.dimension), k.dimension);
      }
      ChargeAll(keys, r.cost, r.now);
      var q, limit := DequeOf(events, keys[0]), LimitOf(limits, keys[0].dimension);
      verdict := Admitted(limit, Max(0, limit - |q|), (if q != [] then q[0] else 0) + Window(limits));
    }
  }

  // ----- one check, key by key -----

  lemma KeysDistinct(r: Request)
    ensures forall i, j | 0 <= i < j < |KeysOf(r)| :: KeysOf(r)[i] != KeysOf(r)[j]
  {
  }

  predicate Distinct(keys: seq<LimitKey>) {
    forall i, j | 0 <= i < j < |keys| :: keys[i] != keys[j]
  }

  /** Room for the cost under one key, by its deque. */
  predicate Fits(l: Limits, q: seq<int>, k: LimitKey, cost: int, now: int) {
    |Pruned(q, now - Window(l))| + cost <= LimitOf(l, k.dimension)
  }

  ghost predicate AllFit(l: Limits, events: Deques, keys: seq<LimitKey>, cost: int, now: int) {
    forall k | k in keys :: Fits(l, DequeOf(events, k), k, cost, now)
  }

  lemma AllFitStep(l: Limits, events: Deques, keys: seq<LimitKey>, q: seq<int>, cost: int, now: int)
    requires keys != [] && Distinct(keys)
    ensures AllFit(l, events, keys, cost, now) <==>
            Fits(l, DequeOf(events, keys[0]), keys[0], cost, now)
              && AllFit(l, events[keys[0] := q], keys[1..], cost, now)
  {
    hide Fits;
    var next := events[keys[0] := q];
    assert keys[0] !in keys[1..];
    assert keys == [keys[0]] + keys[1..];
    assert forall k | k in keys[1..] :: DequeOf(next, k) == DequeOf(events, k);
    assert forall k :: k in keys <==> k == keys[0] || k in keys[1..];
  }

  /** The test passes exactly when every key has room; otherwise it stops at a key without room, just pruned. */
  lemma {:induction false} PrepareVerdict(l: Limits, events: Deques, keys: seq<LimitKey>, cost: int, now: int)
    requires Distinct(keys)
    ensures var (after, over) := Prepare(l, events, keys, cost, now);
            && (over.None? <==> AllFit(l, events, keys, cost, now))
            && (over.Some? ==> over.value in keys && !Fits(l, DequeOf(events, over.value), over.value, cost, now)
                               && DequeOf(after, over.value) == Pruned(DequeOf(events, over.value), now - Window(l)))
    decreases |keys|
  {
    if keys != [] {
      var q := Pruned(DequeOf(events, keys[0]), now - Window(l));
      var next := events[keys[0] := q];
      PrepareVerdict(l, next, keys[1..], cost, now);
      AllFitStep(l, events, keys, q, cost, now);
      hide AllFit, Pruned, Window, LimitOf;
      assert keys[0] !in keys[1..];
      var over := Prepare(l, next, keys[1..], cost, now).1;
      assert over.Some? ==> over.value in keys && DequeOf(next, over.value) == DequeOf(events, over.value);
    }
  }

  /** What the test leaves in one deque: nothing else than pruning, and that for every key when it passes. */
  lemma {:induction false} PrepareEffect(l: Limits, events: Deques, keys: seq<LimitKey>, cost: int,
                                         now: int, k: LimitKey)
    requires Distinct(keys)
    ensures var (after, over) := Prepare(l, events, keys, cost, now);
            && (DequeOf(after, k) == DequeOf(events, k)
                || DequeOf(after, k) == Pruned(DequeOf(events, k), now - Window(l)))
            && (k !in keys ==> DequeOf(after, k) == DequeOf(events, k))
            && (over.None? && k in keys ==> DequeOf(after, k) == Pruned(DequeOf(events, k), now - Window(l)))
    decreases |keys|
  {
    if keys != [] {
      var q := Pruned(DequeOf(events, keys[0]), now - Window(l));
      var next := events[keys[0] := q];
      PrepareEffect(l, next, keys[1..], cost, now, k);
      assert keys[0] !in keys[1..];
    }
  }

  lemma {:induction false} ChargeEffect(events: Deques, keys: seq<LimitKey>, cost: int, now: int, k: LimitKey)
    requires Distinct(keys)
    ensures DequeOf(Charge(events, keys, cost, now), k) ==
            DequeOf(events, k) + if k in keys then Repeat(now, cost) else []
    decreases |keys|
  {
    if keys != [] {
      ChargeEffect(events[keys[0] := DequeOf(events, keys[0]) + Repeat(now, cost)], keys[1..], cost, now, k);
      assert keys[0] !in keys[1..];
    }
  }

  /** A refusal charges no key: every deque is what it was, or that with expired charges removed. */
  lemma RefusalChargesNothing(l: Limits, events: Deques, r: Request, k: LimitKey)
    requires !Decide(l, events, r).1.Admitted?
    ensures var q := DequeOf(Decide(l, events, r).0, k);
            q == DequeOf(events, k) || q == Pruned(DequeOf(events, k), r.now - Window(l))
  {
    KeysDistinct(r);
    PrepareEffect(l, events, KeysOf(r), r.cost, r.now, k);
  }

  // ----- runs: the deques against the full history -----

  ghost function RunAll(l: Limits, reqs: seq<Request>): Deques {
    if reqs == [] then map[] else Decide(l, RunAll(l, reqs[..|reqs| - 1]), reqs[|reqs| - 1]).0
  }

  ghost predicate IsAdmitted(l: Limits, before: seq<Request>, r: Request) {
    Decide(l, RunAll(l, before), r).1.Admitted?
  }

  /** Everything ever charged to one key, one entry per unit of cost, in order. */
  ghost function ChargesOf(l: Limits, reqs: seq<Request>, k: LimitKey): seq<int> {
    if reqs == [] then []
    else
      var before, last := reqs[..|reqs| - 1], reqs[|reqs| - 1];
      ChargesOf(l, before, k) +
      if IsAdmitted(l, before, last) && k in KeysOf(last) then Repeat(last.now, last.cost) else []
  }

  ghost predicate Monotone(reqs: seq<Request>) {
    forall i, j | 0 <= i < j < |reqs| :: reqs[i].now <= reqs[j].now
  }

  /** Every request was made by then. */
  ghost predicate Until(reqs: seq<Request>, now: int) {
    forall i | 0 <= i < |reqs| :: reqs[i].now <= now
  }

  /** The charges of a history after `cutoff`. */
  ghost function Newer(h: seq<int>, cutoff: int): seq<int> {
    if h == [] then []
    else Newer(h[..|h| - 1], cutoff) + if cutoff < h[|h| - 1] then [h[|h| - 1]] else []
  }

  /** The charges of a history in `[from, from + length)`. */
  ghost function Within(h: seq<int>, from: int, length: int): seq<int> {
    if h == [] then []
    else Within(h[..|h| - 1], from, length) + if from <= h[|h| - 1] < from + length then [h[|h| - 1]] else []
  }

  ghost predicate Ascending(h: seq<int>) {
    forall i, j | 0 <= i < j < |h| :: h[i] <= h[j]
  }

  ghost predicate AtMost(h: seq<int>, now: int) {
    forall i | 0 <= i < |h| :: h[i] <= now
  }

  lemma {:induction false} RepeatIs(t: int, cost: int)
    requires 0 <= cost
    ensures |Repeat(t, cost)| == cost && forall i | 0 <= i < cost :: Repeat(t, cost)[i] == t
    decreases cost
  {
    if 0 < cost { RepeatIs(t, cost - 1); }
  }

  lemma {:induction false} NewerAppends(a: seq<int>, b: seq<int>, cutoff: int)
    ensures Newer(a + b, cutoff) == Newer(a, cutoff) + Newer(b, cutoff)
    decreases |b|
  {
    if b == [] {
      assert a + b == a;
    } else {
      assert (a + b)[..|a + b| - 1] == a + b[..|b| - 1];
      NewerAppends(a, b[..|b| - 1], cutoff);
    }
  }

  lemma {:induction false} WithinAppends(a: seq<int>, b: seq<int>, from: int, length: int)
    ensures Within(a + b, from, length) == Within(a, from, length) + Within(b, from, length)
    decreases |b|
  {
    if b == [] {
      assert a + b == a;
    } else {
      assert (a + b)[..|a + b| - 1] == a + b[..|b| - 1];
      WithinAppends(a, b[..|b| - 1], from, length);
    }
  }

  lemma {:induction false} NewerKeepsAll(h: seq<int>, cutoff: int)
    requires forall i | 0 <= i < |h| :: cutoff < h[i]
    ensures Newer(h, cutoff) == h
    decreases |h|
  {
    if h != [] {
      NewerKeepsAll(h[..|h| - 1], cutoff);
      assert h == h[..|h| - 1] + [h[|h| - 1]];
    }
  }

  lemma {:induction false} NewerDropsAll(h: seq<int>, cutoff: int)
    requires forall i | 0 <= i < |h| :: h[i] <= cutoff
    ensures Newer(h, cutoff) == []
    decreases |h|
  {
    if h != [] { NewerDropsAll(h[..|h| - 1], cutoff); }
  }

  lemma {:induction false} WithinIsRecent(h: seq<int>, from: int, length: int, cutoff: int)
    requires cutoff < from
    ensures |Within(h, from, length)| <= |Newer(h, cutoff)|
    decreases |h|
  {
    if h != [] { WithinIsRecent(h[..|h| - 1], from, length, cutoff); }
  }

  lemma {:induction false} WithinRepeat(t: int, cost: int, from: int, length: int)
    requires 0 <= cost
    ensures |Within(Repeat(t, cost), from, length)| == if from <= t < from + length then cost else 0
    decreases cost
  {
    if 0 < cost {
      WithinRepeat(t, cost - 1, from, length);
      assert Repeat(t, cost)[..|Repeat(t, cost)| - 1] == Repeat(t, cost - 1);
    }
  }

  lemma {:induction false} PrunedIsSuffix(q: seq<int>, cutoff: int) returns (n: nat)
    ensures n <= |q| && Pruned(q, cutoff) == q[n..]
    ensures forall i | 0 <= i < n :: q[i] <= cutoff
    ensures n < |q| ==> cutoff < q[n]
    decreases |q|
  {
    if q != [] && q[0] <= cutoff {
      var m := PrunedIsSuffix(q[1..], cutoff);
      n := m + 1;
    } else {
      n := 0;
    }
  }

  /** On a sorted queue, popping from the front removes every expired charge. */
  lemma PrunedIsNewer(q: seq<int>, cutoff: int)
    requires Ascending(q)
    ensures Pruned(q, cutoff) == Newer(q, cutoff)
  {
    hide Pruned, Newer;
    var n := PrunedIsSuffix(q, cutoff);
    assert q == q[..n] + q[n..];
    NewerAppends(q[..n], q[n..], cutoff);
    NewerDropsAll(q[..n], cutoff);
    NewerKeepsAll(q[n..], cutoff);
  }

  /** What one check does to one key's deque. */
  lemma DecideEffect(l: Limits, events: Deques, r: Request, k: LimitKey)
    ensures var (after, verdict) := Decide(l, events, r);
            var before := DequeOf(events, k);
            var pruned := Pruned(before, r.now - Window(l));
            && (verdict.Admitted? ==> 0 < r.cost)
            && (verdict.Admitted? && k in KeysOf(r) ==>
                  DequeOf(after, k) == pruned + Repeat(r.now, r.cost) && |pruned| + r.cost <= LimitOf(l, k.dimension))
            && (verdict.Admitted? && k !in KeysOf(r) ==> DequeOf(after, k) == before)
            && (!verdict.Admitted? ==> DequeOf(after, k) == before || DequeOf(after, k) == pruned)
  {
    KeysDistinct(r);
    hide Prepare, Charge, Repeat, KeysOf, Pruned, DequeOf, LimitOf, Window;
    var keys := KeysOf(r);
    if 0 < r.cost && keys != [] {
      PrepareVerdict(l, events, keys, r.cost, r.now);
      PrepareEffect(l, events, keys, r.cost, r.now, k);
      var (prepared, over) := Prepare(l, events, keys, r.cost, r.now);
      if over.None? {
        ChargeEffect(prepared, keys, r.cost, r.now, k);
      }
    }
  }

  lemma DecideAdmits(l: Limits, events: Deques, r: Request)
    ensures Decide(l, events, r).1.Admitted? <==>
            0 < r.cost && KeysOf(r) != [] && AllFit(l, events, KeysOf(r), r.cost, r.now)
  {
    KeysDistinct(r);
    hide Prepare, Charge, KeysOf, DequeOf, LimitOf, Window, AllFit;
    PrepareVerdict(l, events, KeysOf(r), r.cost, r.now);
    if r.cost <= 0 {
    } else if KeysOf(r) == [] {
    } else if Prepare(l, events, KeysOf(r), r.cost, r.now).1.Some? {
    } else {
      assert Decide(l, events, r).1.Admitted?;
    }
  }

  /** The key that a refusal reports, just pruned. */
  lemma DecideRefuses(l: Limits, events: Deques, r: Request) returns (k: LimitKey)
    requires Decide(l, events, r).1.Limited?
    ensures var (after, verdict) := Decide(l, events, r);
            && k in KeysOf(r) && k.dimension == verdict.dimension && verdict.limit == LimitOf(l, k.dimension)
            && DequeOf(after, k) == Pruned(DequeOf(events, k), r.now - Window(l))
            && verdict.limit < |DequeOf(after, k)| + r.cost
            && verdict.retryAfter == RetryAfter(DequeOf(after, k), r.now, Window(l))
  {
    KeysDistinct(r);
    hide Prepare, Charge, KeysOf, DequeOf, LimitOf, Window, AllFit, RetryAfter, Pruned;
    PrepareVerdict(l, events, KeysOf(r), r.cost, r.now);
    k := Prepare(l, events, KeysOf(r), r.cost, r.now).1.value;
  }

  /** No deque ever holds more than its limit, whatever the clock does. */
  lemma {:induction false} DequeWithinLimit(l: Limits, reqs: seq<Request>, k: LimitKey)
    requires Positive(l)
    ensures |DequeOf(RunAll(l, reqs), k)| <= LimitOf(l, k.dimension)
    decreases |reqs|
  {
    if reqs != [] {
      var before, last := reqs[..|reqs| - 1], reqs[|reqs| - 1];
      DequeWithinLimit(l, before, k);
      DecideEffect(l, RunAll(l, before), last, k);
      var n := PrunedIsSuffix(DequeOf(RunAll(l, before), k), last.now - Window(l));
      RepeatIs(last.now, if last.cost < 0 then 0 else last.cost);
    }
  }

  /** `q` is the sorted history `h` up to `now`, without a prefix of `n` charges that have expired. */
  ghost predicate RecentPart(h: seq<int>, q: seq<int>, n: nat, now: int, window: int) {
    && Ascending(h) && (forall i | 0 <= i < |h| :: h[i] <= now)
    && n <= |h| && q == h[n..]
    && (forall i | 0 <= i < n :: h[i] <= now - window)
  }

  lemma RecentLater(h: seq<int>, q: seq<int>, n: nat, now: int, later: int, window: int)
    requires RecentPart(h, q, n, now, window) && now <= later
    ensures RecentPart(h, q, n, later, window)
  {
  }

  lemma RecentPruned(h: seq<int>, q: seq<int>, n: nat, now: int, window: int) returns (m: nat)
    requires RecentPart(h, q, n, now, window)
    ensures RecentPart(h, Pruned(q, now - window), m, now, window)
  {
    var dropped := PrunedIsSuffix(q, now - window);
    m := n + dropped;
    assert h[m..] == q[dropped..];
    forall i | 0 <= i < m ensures h[i] <= now - window {
      if n <= i { assert h[i] == q[i - n]; }
    }
  }

  lemma RecentCharged(h: seq<int>, q: seq<int>, n: nat, now: int, window: int, cost: int)
    requires RecentPart(h, q, n, now, window) && 0 <= cost
    ensures RecentPart(h + Repeat(now, cost), q + Repeat(now, cost), n, now, window)
  {
    RepeatIs(now, cost);
    assert (h + Repeat(now, cost))[n..] == q + Repeat(now, cost);
  }

  lemma RunAllSnoc(l: Limits, reqs: seq<Request>, r: Request)
    ensures RunAll(l, reqs + [r]) == Decide(l, RunAll(l, reqs), r).0
  {
    assert (reqs + [r])[..|reqs|] == reqs;
  }

  lemma RecentNext(l: Limits, reqs: seq<Request>, r: Request, k: LimitKey, n: nat) returns (m: nat)
    requires RecentPart(ChargesOf(l, reqs, k), DequeOf(RunAll(l, reqs), k), n, r.now, Window(l))
    ensures RecentPart(ChargesOf(l, reqs + [r], k), DequeOf(RunAll(l, reqs + [r]), k), m, r.now, Window(l))
  {
    DecideEffect(l, RunAll(l, reqs), r, k);
    RunAllSnoc(l, reqs, r);
    AppendsCharges(l, reqs, r, k);
    hide Decide, Pruned, KeysOf, LimitOf, Repeat, RecentPart, DequeOf, Window, RunAll, ChargesOf;
    var h, q := ChargesOf(l, reqs, k), DequeOf(RunAll(l, reqs), k);
    m := RecentPruned(h, q, n, r.now, Window(l));
    if IsAdmitted(l, reqs, r) && k in KeysOf(r) {
      RecentCharged(h, Pruned(q, r.now - Window(l)), m, r.now, Window(l), r.cost);
    } else if DequeOf(RunAll(l, reqs + [r]), k) == q {
      m := n;
    }
  }

  /** With a clock that does not run backwards, a deque is its key's history without an expired prefix. */
  lemma {:induction false} DequeIsRecentHistory(l: Limits, reqs: seq<Request>, k: LimitKey, now: int) returns (n: nat)
    requires Positive(l) && Monotone(reqs) && Until(reqs, now)
    ensures RecentPart(ChargesOf(l, reqs, k), DequeOf(RunAll(l, reqs), k), n, now, Window(l))
    decreases |reqs|
  {
    if reqs == [] {
      n := 0;
    } else {
      var before, last := reqs[..|reqs| - 1], reqs[|reqs| - 1];
      assert before + [last] == reqs && last.now <= now;
      MonotonePrefix(before, last);
      hide ChargesOf, RunAll, RecentPart, DequeOf, Window, Decide, Positive, Monotone, Until;
      n := DequeIsRecentHistory(l, before, k, last.now);
      n := RecentNext(l, before, last, k, n);
      RecentLater(ChargesOf(l, reqs, k), DequeOf(RunAll(l, reqs), k), n, last.now, now, Window(l));
    }
  }

  /** Pruned, a deque is exactly the charges newer than the cutoff, and the deque is sorted. */
  lemma DequeRefinesHistory(l: Limits, reqs: seq<Request>, k: LimitKey, now: int)
    requires Positive(l) && Monotone(reqs) && Until(reqs, now)
    ensures var q := DequeOf(RunAll(l, reqs), k);
            && Ascending(q) && AtMost(q, now)
            && Pruned(q, now - Window(l)) == Newer(ChargesOf(l, reqs, k), now - Window(l))
  {
    hide ChargesOf, RunAll, Pruned, Newer, Monotone, DequeOf;
    var h, cutoff := ChargesOf(l, reqs, k), now - Window(l);
    var n := DequeIsRecentHistory(l, reqs, k, now);
    PrunedIsNewer(h[n..], cutoff);
    assert h == h[..n] + h[n..];
    NewerAppends(h[..n], h[n..], cutoff);
    NewerDropsAll(h[..n], cutoff);
  }

  lemma MonotonePrefix(reqs: seq<Request>, r: Request)
    requires Monotone(reqs + [r])
    ensures Monotone(reqs) && Until(reqs, r.now)
  {
    assert forall i | 0 <= i < |reqs| :: reqs[i] == (reqs + [r])[i] && r == (reqs + [r])[|reqs|];
  }

  /** Room under every key, by everything ever charged to it. */
  ghost predicate RoomInHistory(l: Limits, reqs: seq<Request>, r: Request) {
    forall k | k in KeysOf(r) :: |Newer(ChargesOf(l, reqs, k), r.now - Window(l))| + r.cost <= LimitOf(l, k.dimension)
  }

  lemma FitsByHistory(l: Limits, reqs: seq<Request>, r: Request)
    requires Positive(l) && Monotone(reqs) && Until(reqs, r.now)
    ensures AllFit(l, RunAll(l, reqs), KeysOf(r), r.cost, r.now) <==> RoomInHistory(l, reqs, r)
  {
    hide KeysOf, Pruned, DequeOf, LimitOf, Window, RunAll, ChargesOf, Newer, Monotone, Positive,
         Until, Ascending, AtMost;
    forall k
      ensures Pruned(DequeOf(RunAll(l, reqs), k), r.now - Window(l)) ==
              Newer(ChargesOf(l, reqs, k), r.now - Window(l)) {
      DequeRefinesHistory(l, reqs, k, r.now);
    }
  }

  /** The decision is the one that the full history would give. */
  lemma AdmittedByHistory(l: Limits, reqs: seq<Request>, r: Request)
    requires Positive(l) && Monotone(reqs + [r])
    ensures IsAdmitted(l, reqs, r) <==> 0 < r.cost && KeysOf(r) != [] && RoomInHistory(l, reqs, r)
  {
    hide Decide, AllFit, RoomInHistory, KeysOf, RunAll, Monotone, Positive, Until;
    MonotonePrefix(reqs, r);
    DecideAdmits(l, RunAll(l, reqs), r);
    FitsByHistory(l, reqs, r);
  }

  lemma AppendsCharges(l: Limits, reqs: seq<Request>, r: Request, k: LimitKey)
    ensures ChargesOf(l, reqs + [r], k) ==
            if IsAdmitted(l, reqs, r) && k in KeysOf(r) then ChargesOf(l, reqs, k) + Repeat(r.now, r.cost)
            else ChargesOf(l, reqs, k)
  {
    hide IsAdmitted, KeysOf, Repeat;
    assert (reqs + [r])[..|reqs|] == reqs;
  }

  lemma WindowBoundStep(l: Limits, h: seq<int>, now: int, cost: int, limit: int, from: int)
    requires 0 <= cost && |Newer(h, now - Window(l))| + cost <= limit && |Within(h, from, Window(l))| <= limit
    ensures |Within(h + Repeat(now, cost), from, Window(l))| <= limit
  {
    hide Repeat, Newer, Within;
    WithinAppends(h, Repeat(now, cost), from, Window(l));
    WithinRepeat(now, cost, from, Window(l));
    if from <= now < from + Window(l) {
      WithinIsRecent(h, from, Window(l), now - Window(l));
    }
  }

  lemma WindowBoundNext(l: Limits, reqs: seq<Request>, r: Request, k: LimitKey, from: int)
    requires Positive(l) && Monotone(reqs + [r])
    requires |Within(ChargesOf(l, reqs, k), from, Window(l))| <= LimitOf(l, k.dimension)
    ensures |Within(ChargesOf(l, reqs + [r], k), from, Window(l))| <= LimitOf(l, k.dimension)
  {
    hide Decide, KeysOf, Repeat, LimitOf, Window, Newer, IsAdmitted, Within, Monotone, Positive, ChargesOf;
    AppendsCharges(l, reqs, r, k);
    if IsAdmitted(l, reqs, r) && k in KeysOf(r) {
      AdmittedByHistory(l, reqs, r);
      WindowBoundStep(l, ChargesOf(l, reqs, k), r.now, r.cost, LimitOf(l, k.dimension), from);
    }
  }

  /** The sliding-window bound: no interval of the window's length ever holds more than the limit. */
  lemma {:induction false} WindowBound(l: Limits, reqs: seq<Request>, k: LimitKey, from: int)
    requires Positive(l) && Monotone(reqs)
    ensures |Within(ChargesOf(l, reqs, k), from, Window(l))| <= LimitOf(l, k.dimension)
    decreases |reqs|
  {
    if reqs != [] {
      WindowBound(l, reqs[..|reqs| - 1], k, from);
      hide Within, ChargesOf, Monotone, Window;
      assert reqs[..|reqs| - 1] + [reqs[|reqs| - 1]] == reqs;
      WindowBoundNext(l, reqs[..|reqs| - 1], reqs[|reqs| - 1], k, from);
    }
  }

  /** The delay is whole seconds, at least one and at most the window; after it the oldest charge has left
      the window, and one second less would not do. */
  ghost predicate FitDelay(l: Limits, oldest: int, now: int, delay: int) {
    && 1 <= delay <= l.windowSeconds
    && oldest <= now + 1000 * delay - Window(l)
    && now + 1000 * (delay - 1) - Window(l) < oldest
  }

  lemma OldestExpiry(l: Limits, q: seq<int>, now: int)
    requires Positive(l) && AtMost(q, now)
    ensures var p := Pruned(q, now - Window(l));
            p != [] ==> FitDelay(l, p[0], now, RetryAfter(p, now, Window(l)))
  {
    var n := PrunedIsSuffix(q, now - Window(l));
  }

  /** A refused caller whose cost could ever fit is told the shortest delay after which the oldest charge of
      the full dimension has left the window. */
  lemma RetryDelay(l: Limits, reqs: seq<Request>, r: Request) returns (k: LimitKey)
    requires Positive(l) && Monotone(reqs + [r])
    requires Decide(l, RunAll(l, reqs), r).1.Limited? && r.cost <= Decide(l, RunAll(l, reqs), r).1.limit
    ensures var (after, verdict) := Decide(l, RunAll(l, reqs), r);
            var current := Newer(ChargesOf(l, reqs, k), r.now - Window(l));
            && k in KeysOf(r) && k.dimension == verdict.dimension && verdict.limit == LimitOf(l, k.dimension)
            && current != [] && verdict.limit < |current| + r.cost
            && FitDelay(l, current[0], r.now, verdict.retryAfter)
  {
    hide Decide, KeysOf, Pruned, DequeOf, LimitOf, Window, RunAll, ChargesOf, Newer, Positive, RetryAfter, FitDelay,
         Until, Ascending, AtMost;
    MonotonePrefix(reqs, r);
    hide Monotone;
    k := DecideRefuses(l, RunAll(l, reqs), r);
    DequeRefinesHistory(l, reqs, k, r.now);
    OldestExpiry(l, DequeOf(RunAll(l, reqs), k), r.now);
  }

  // ----- the same request again, after the told delay -----

  /** The refused request, sent once more when the told delay is over. */
  ghost function Again(l: Limits, reqs: seq<Request>, r: Request): Request
    requires Decide(l, RunAll(l, reqs), r).1.Limited?
  {
    r.(now := r.now + 1000 * Decide(l, RunAll(l, reqs), r).1.retryAfter)
  }

  /** Enough of the charges made before the refusal have left the key's window at that time. */
  ghost predicate RoomThen(l: Limits, reqs: seq<Request>, r: Request, k: LimitKey, later: int) {
    |Newer(ChargesOf(l, reqs, k), later - Window(l))| + r.cost <= LimitOf(l, k.dimension)
  }

  lemma RefusedAsks(l: Limits, events: Deques, r: Request)
    requires Decide(l, events, r).1.Limited?
    ensures 0 < r.cost && KeysOf(r) != [] && 1 <= Decide(l, events, r).1.retryAfter
  {
    hide Prepare, Charge, KeysOf, DequeOf, LimitOf, Window;
  }

  lemma MonotoneExtends(reqs: seq<Request>, r: Request)
    requires Monotone(reqs) && Until(reqs, r.now)
    ensures Monotone(reqs + [r])
  {
  }

  lemma RefusedNotCharged(l: Limits, reqs: seq<Request>, r: Request, k: LimitKey)
    requires Decide(l, RunAll(l, reqs), r).1.Limited?
    ensures ChargesOf(l, reqs + [r], k) == ChargesOf(l, reqs, k)
  {
    hide Decide, KeysOf, ChargesOf;
    AppendsCharges(l, reqs, r, k);
  }

  /** If nothing else is charged in between, the same request is admitted after the told delay exactly when
      enough earlier charges have left the window of every one of its keys by then. */
  lemma RetryIsAdmitted(l: Limits, reqs: seq<Request>, r: Request)
    requires Positive(l) && Monotone(reqs + [r]) && Decide(l, RunAll(l, reqs), r).1.Limited?
    ensures var again := Again(l, reqs, r);
            IsAdmitted(l, reqs + [r], again) <==> forall k | k in KeysOf(r) :: RoomThen(l, reqs, r, k, again.now)
  {
    hide Decide, KeysOf, RunAll, ChargesOf, Newer, Positive, IsAdmitted, Window, LimitOf;
    var again := Again(l, reqs, r);
    RefusedAsks(l, RunAll(l, reqs), r);
    MonotonePrefix(reqs, r);
    MonotoneExtends(reqs + [r], again);
    hide Monotone;
    AdmittedByHistory(l, reqs + [r], again);
    SameKeys(r, again.now);
    forall k ensures ChargesOf(l, reqs + [r], k) == ChargesOf(l, reqs, k) {
      RefusedNotCharged(l, reqs, r, k);
    }
  }

  lemma SameKeys(r: Request, now: int)
    ensures KeysOf(r.(now := now)) == KeysOf(r)
  {
  }

  lemma {:induction false} NewerTwice(h: seq<int>, earlier: int, later: int)
    requires earlier <= later
    ensures Newer(h, later) == Newer(Newer(h, earlier), later)
    decreases |h|
  {
    if h != [] {
      NewerTwice(h[..|h| - 1], earlier, later);
      var last := if earlier < h[|h| - 1] then [h[|h| - 1]] else [];
      NewerAppends(Newer(h[..|h| - 1], earlier), last, later);
      assert last != [] ==> last[..0] == [];
      assert Newer([], later) == [];
    }
  }

  lemma {:induction false} NewerIsShorter(h: seq<int>, cutoff: int)
    ensures |Newer(h, cutoff)| <= |h|
    decreases |h|
  {
    if h != [] { NewerIsShorter(h[..|h| - 1], cutoff); }
  }

  lemma OldestLeaves(h: seq<int>, earlier: int, later: int)
    requires earlier <= later && Newer(h, earlier) != [] && Newer(h, earlier)[0] <= later
    ensures |Newer(h, later)| < |Newer(h, earlier)|
  {
    hide Newer;
    var current := Newer(h, earlier);
    NewerTwice(h, earlier, later);
    assert current == [current[0]] + current[1..];
    NewerAppends([current[0]], current[1..], later);
    NewerDropsAll([current[0]], later);
    NewerIsShorter(current[1..], later);
  }

  lemma CurrentWithinLimit(l: Limits, reqs: seq<Request>, k: LimitKey, now: int)
    requires Positive(l) && Monotone(reqs) && Until(reqs, now)
    ensures |Newer(ChargesOf(l, reqs, k), now - Window(l))| <= LimitOf(l, k.dimension)
  {
    hide ChargesOf, Newer, RunAll, DequeOf, LimitOf, Monotone, Until, Positive;
    DequeWithinLimit(l, reqs, k);
    DequeRefinesHistory(l, reqs, k, now);
    var n := PrunedIsSuffix(DequeOf(RunAll(l, reqs), k), now - Window(l));
  }

  /** A request of cost 1 is admitted after the told delay exactly when none of its other dimensions is full by
      then: the dimension that refused it has room again. */
  lemma UnitRetry(l: Limits, reqs: seq<Request>, r: Request) returns (k: LimitKey)
    requires Positive(l) && Monotone(reqs + [r]) && Decide(l, RunAll(l, reqs), r).1.Limited? && r.cost == 1
    ensures k in KeysOf(r) && k.dimension == Decide(l, RunAll(l, reqs), r).1.dimension
    ensures var again := Again(l, reqs, r);
            IsAdmitted(l, reqs + [r], again) <==>
            forall other | other in KeysOf(r) && other != k :: RoomThen(l, reqs, r, other, again.now)
  {
    hide Decide, KeysOf, RunAll, ChargesOf, Newer, IsAdmitted, LimitOf;
    k := FullKey(l, reqs, r);
    RetryIsAdmitted(l, reqs, r);
  }

  lemma FullKey(l: Limits, reqs: seq<Request>, r: Request) returns (k: LimitKey)
    requires Positive(l) && Monotone(reqs + [r]) && Decide(l, RunAll(l, reqs), r).1.Limited? && r.cost == 1
    ensures k in KeysOf(r) && k.dimension == Decide(l, RunAll(l, reqs), r).1.dimension
    ensures RoomThen(l, reqs, r, k, Again(l, reqs, r).now)
  {
    hide Decide, KeysOf, RunAll, ChargesOf, Newer, LimitOf, Monotone;
    LimitIsPositive(l, RunAll(l, reqs), r);
    k := RetryDelay(l, reqs, r);
    RefusedAsks(l, RunAll(l, reqs), r);
    MonotonePrefix(reqs, r);
    CurrentWithinLimit(l, reqs, k, r.now);
    OldestLeaves(ChargesOf(l, reqs, k), r.now - Window(l), Again(l, reqs, r).now - Window(l));
  }

  lemma LimitIsPositive(l: Limits, events: Deques, r: Request)
    requires Positive(l) && Decide(l, events, r).1.Limited?
    ensures 1 <= Decide(l, events, r).1.limit
  {
    hide Decide, KeysOf, Pruned, DequeOf;
    var k := DecideRefuses(l, events, r);
  }

  const TWO_A_MINUTE: Limits := Limits(2, 2, 2, 60)

  const CALLER := LimitKey(UserId, "u")

  function Ask(cost: int, now: int): Request {
    Request(Some("u"), None, None, cost, now)
  }

  lemma AskHasOneKey(cost: int, now: int)
    ensures KeysOf(Ask(cost, now)) == [CALLER]
  {
  }

  lemma AskIsCharged(reqs: seq<Request>, now: int)
    requires Monotone(reqs + [Ask(1, now)])
    requires |ChargesOf(TWO_A_MINUTE, reqs, CALLER)| <= 1
    ensures ChargesOf(TWO_A_MINUTE, reqs + [Ask(1, now)], CALLER) == ChargesOf(TWO_A_MINUTE, reqs, CALLER) + [now]
  {
    hide Decide, KeysOf, IsAdmitted, ChargesOf, Newer, Monotone, RunAll;
    AskHasOneKey(1, now);
    NewerIsShorter(ChargesOf(TWO_A_MINUTE, reqs, CALLER), now - 60000);
    AdmittedByHistory(TWO_A_MINUTE, reqs, Ask(1, now));
    AppendsCharges(TWO_A_MINUTE, reqs, Ask(1, now), CALLER);
    assert Repeat(now, 0) == [];
  }

  lemma TwoCharges()
    ensures ChargesOf(TWO_A_MINUTE, [Ask(1, 0), Ask(1, 30000)], CALLER) == [0, 30000]
  {
    hide ChargesOf;
    var first := [Ask(1, 0)];
    assert [] + first == first && first + [Ask(1, 30000)] == [Ask(1, 0), Ask(1, 30000)];
    NoCharges();
    AskIsCharged([], 0);
    AskIsCharged(first, 30000);
  }

  lemma NoCharges()
    ensures ChargesOf(TWO_A_MINUTE, [], CALLER) == []
  {
  }

  lemma NewerOfTwo(cutoff: int)
    ensures Newer([0, 30000], cutoff) ==
            if cutoff < 0 then [0, 30000] else if cutoff < 30000 then [30000] else []
  {
    assert [0, 30000][..1] == [0] && [0][..0] == [];
    assert Newer([0], cutoff) == if cutoff < 0 then [0] else [];
  }

  /** With two units a minute, two of them charged at 0 s and 30 s: a request for both at 31 s is told to come
      back after 29 s, when only one unit is free again, and is then refused once more. */
  lemma CostlyRetryIsRefused()
    ensures var reqs, r := [Ask(1, 0), Ask(1, 30000)], Ask(2, 31000);
            && Decide(TWO_A_MINUTE, RunAll(TWO_A_MINUTE, reqs), r).1 == Limited(29, 2, UserId)
            && !IsAdmitted(TWO_A_MINUTE, reqs + [r], Again(TWO_A_MINUTE, reqs, r))
  {
    hide Decide, KeysOf, RunAll, ChargesOf, Newer, IsAdmitted;
    var reqs, r := [Ask(1, 0), Ask(1, 30000)], Ask(2, 31000);
    AskHasOneKey(2, 31000);
    TwoCharges();
    NewerOfTwo(-29000);
    NewerOfTwo(0);
    AdmittedByHistory(TWO_A_MINUTE, reqs, r);
    AdmittedMeans(TWO_A_MINUTE, reqs, r);
    NotAdmittedIsLimited(TWO_A_MINUTE, RunAll(TWO_A_MINUTE, reqs), r);
    var k := RetryDelay(TWO_A_MINUTE, reqs, r);
    assert Decide(TWO_A_MINUTE, RunAll(TWO_A_MINUTE, reqs), r).1.retryAfter == 29;
    RetryIsAdmitted(TWO_A_MINUTE, reqs, r);
    assert CALLER in KeysOf(r);
  }

  lemma AdmittedMeans(l: Limits, reqs: seq<Request>, r: Request)
    ensures IsAdmitted(l, reqs, r) <==> Decide(l, RunAll(l, reqs), r).1.Admitted?
  {
  }

  lemma NotAdmittedIsLimited(l: Limits, events: Deques, r: Request)
    requires Positive(l) && !Decide(l, events, r).1.Admitted? && 0 < r.cost && KeysOf(r) != []
    ensures Decide(l, events, r).1.Limited?
    ensures exists k :: k in KeysOf(r) && Decide(l, events, r).1.limit == LimitOf(l, k.dimension)
                        && Decide(l, events, r).1.dimension == k.dimension
  {
    hide Prepare, Charge, KeysOf, DequeOf, LimitOf, Window;
    assert Decide(l, events, r).1.Limited?;
    var k := DecideRefuses(l, events, r);
  }

  /** An admission reports, for the first key, the room left in the window that now ends, and the moment at
      which the oldest charge of that window leaves it. */
  lemma AdmissionAnswer(l: Limits, reqs: seq<Request>, r: Request)
    requires Positive(l) && Monotone(reqs + [r]) && IsAdmitted(l, reqs, r)
    ensures KeysOf(r) != []
    ensures var k, answer := KeysOf(r)[0], Decide(l, RunAll(l, reqs), r).1;
            var current := Newer(ChargesOf(l, reqs + [r], k), r.now - Window(l));
            && answer.limit == LimitOf(l, k.dimension)
            && answer.remaining == answer.limit - |current| && 0 <= answer.remaining
            && current != [] && answer.resetAt == current[0] + Window(l)
  {
    hide Decide, KeysOf, LimitOf, DequeOf, RunAll, ChargesOf, Newer, Monotone, Positive, Window;
    DecideAdmits(l, RunAll(l, reqs), r);
    var k := KeysOf(r)[0];
    assert k in KeysOf(r);
    DequeIsCurrent(l, reqs, r, k);
    AdmissionReport(l, RunAll(l, reqs), r);
  }

  lemma WindowIsPositive(l: Limits)
    requires Positive(l)
    ensures 0 < Window(l)
  {
  }

  lemma RepeatIsNewer(now: int, cost: int, cutoff: int)
    requires 0 <= cost && cutoff < now
    ensures Newer(Repeat(now, cost), cutoff) == Repeat(now, cost) && |Repeat(now, cost)| == cost
  {
    RepeatIs(now, cost);
    NewerKeepsAll(Repeat(now, cost), cutoff);
  }

  /** Right after an admission, the deque of a charged key is exactly the charges of the current window. */
  lemma DequeIsCurrent(l: Limits, reqs: seq<Request>, r: Request, k: LimitKey)
    requires Positive(l) && Monotone(reqs + [r]) && IsAdmitted(l, reqs, r) && k in KeysOf(r)
    ensures var q := DequeOf(Decide(l, RunAll(l, reqs), r).0, k);
            q == Newer(ChargesOf(l, reqs + [r], k), r.now - Window(l)) && 0 < |q| <= LimitOf(l, k.dimension)
  {
    hide Decide, KeysOf, LimitOf, DequeOf, RunAll, ChargesOf, Newer, Repeat, Pruned, Positive, Window, Ascending,
         AtMost, Until, Monotone;
    WindowIsPositive(l);
    MonotonePrefix(reqs, r);
    DequeRefinesHistory(l, reqs, k, r.now);
    DecideEffect(l, RunAll(l, reqs), r, k);
    AppendsCharges(l, reqs, r, k);
    NewerAppends(ChargesOf(l, reqs, k), Repeat(r.now, r.cost), r.now - Window(l));
    RepeatIsNewer(r.now, r.cost, r.now - Window(l));
  }

  lemma AdmissionReport(l: Limits, events: Deques, r: Request)
    requires Decide(l, events, r).1.Admitted? && KeysOf(r) != []
    ensures var (after, answer) := Decide(l, events, r);
            var q := DequeOf(after, KeysOf(r)[0]);
            && answer.limit == LimitOf(l, KeysOf(r)[0].dimension)
            && answer.remaining == Max(0, answer.limit - |q|)
            && answer.resetAt == (if q != [] then q[0] else 0) + Window(l)
  {
    hide Prepare, Charge, KeysOf, DequeOf, LimitOf, Window;
  }
}
