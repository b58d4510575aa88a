/** What the limiter promises about the fields of a request: which charges count under which value, and whether
    there is room for one more. */
module RateLimitOutcomes {
  import opened Foundations
  import opened RateLimits

  /** The request is counted under this value of this dimension. */
  predicate CountsUnder(r: Request, d: Dimension, value: string) {
    value != "" &&
    match d
    case UserId => r.user == Some(value)
    case ProjectId => r.project == Some(value)
    case IpAddress => r.ip == Some(value)
  }

  predicate Named(field: Option<string>) {
    field.Some? && field.value != ""
  }

  function LimitFor(l: Limits, d: Dimension): int {
    match d
    case UserId => l.user
    case ProjectId => l.project
    case IpAddress => l.ip
  }

  /** Every charge of the admitted requests that carry this value, in order, one entry per unit of cost. */
  ghost function Charged(l: Limits, reqs: seq<Request>, d: Dimension, value: string): seq<int> {
    if reqs == [] then []
    else
      var before, last := reqs[..|reqs| - 1], reqs[|reqs| - 1];
      Charged(l, before, d, value) +
      if IsAdmitted(l, before, last) && CountsUnder(last, d, value) then seq(last.cost, _ => last.now) else []
  }

  lemma KeysAreFields(r: Request, d: Dimension, value: string)
    ensures LimitKey(d, value) in KeysOf(r) <==> CountsUnder(r, d, value)
  {
  }

  lemma {:induction false} RepeatIsSeq(t: int, cost: nat)
    ensures Repeat(t, cost) == seq(cost, _ => t)
    decreases cost
  {
    if cost != 0 { RepeatIsSeq(t, cost - 1); }
  }

  lemma AdmittedCosts(l: Limits, before: seq<Request>, r: Request)
    ensures IsAdmitted(l, before, r) ==> 0 < r.cost
  {
    DecideAdmits(l, RunAll(l, before), r);
  }

  lemma {:induction false} ChargedIsChargesOf(l: Limits, reqs: seq<Request>, d: Dimension, value: string)
    ensures Charged(l, reqs, d, value) == ChargesOf(l, reqs, LimitKey(d, value))
    decreases |reqs|
  {
    if reqs != [] {
      var before, last := reqs[..|reqs| - 1], reqs[|reqs| - 1];
      hide IsAdmitted, KeysOf, Repeat, CountsUnder;
      ChargedIsChargesOf(l, before, d, value);
      KeysAreFields(last, d, value);
      AdmittedCosts(l, before, last);
      if 0 < last.cost { RepeatIsSeq(last.now, last.cost); }
    }
  }

  /** There is room for the cost when the charges that would have to be gone by then are: of the charges in order of
      time, only the last `limit - cost` may be newer than the cutoff. */
  predicate Room(h: seq<int>, cost: int, limit: int, cutoff: int) {
    cost <= limit && (|h| <= limit - cost || h[|h| - 1 - (limit - cost)] <= cutoff)
  }

  lemma NewerSplits(h: seq<int>, cutoff: int, n: nat)
    requires n <= |h|
    requires (forall i | 0 <= i < n :: h[i] <= cutoff) && (forall i | n <= i < |h| :: cutoff < h[i])
    ensures Newer(h, cutoff) == h[n..]
  {
    hide Newer;
    var gone, left := h[..n], h[n..];
    assert h == gone + left;
    NewerAppends(gone, left, cutoff);
    NewerDropsAll(gone, cutoff);
    NewerKeepsAll(left, cutoff);
  }

  lemma NewerCounts(h: seq<int>, cutoff: int, n: nat)
    requires Ascending(h) && n <= |h|
    requires (forall i | 0 <= i < n :: h[i] <= cutoff) && (forall i | n <= i < |h| :: cutoff < h[i])
    ensures |Newer(h, cutoff)| == |h| - n
  {
    NewerSplits(h, cutoff, n);
  }

  lemma {:induction false} FirstNewer(h: seq<int>, cutoff: int) returns (n: nat)
    requires Ascending(h)
    ensures n <= |h|
    ensures (forall i | 0 <= i < n :: h[i] <= cutoff) && (forall i | n <= i < |h| :: cutoff < h[i])
    decreases |h|
  {
    if h == [] || h[|h| - 1] <= cutoff {
      n := |h|;
    } else {
      n := FirstNewer(h[..|h| - 1], cutoff);
    }
  }

  lemma RoomIsNewer(h: seq<int>, cost: int, limit: int, cutoff: int)
    requires Ascending(h) && 0 < cost
    ensures Room(h, cost, limit, cutoff) <==> |Newer(h, cutoff)| + cost <= limit
  {
    var n := FirstNewer(h, cutoff);
    NewerCounts(h, cutoff, n);
  }

  lemma HistoryAscends(l: Limits, reqs: seq<Request>, k: LimitKey, now: int)
    requires Positive(l) && Monotone(reqs) && Until(reqs, now)
    ensures Ascending(ChargesOf(l, reqs, k))
  {
    hide ChargesOf, RunAll, DequeOf, Monotone, Until, Positive;
    var n := DequeIsRecentHistory(l, reqs, k, now);
  }

  /** Room for the request under one dimension, if the request names a value of it at all. */
  ghost predicate RoomUnder(l: Limits, reqs: seq<Request>, r: Request, d: Dimension) {
    forall value | CountsUnder(r, d, value) ::
      Room(Charged(l, reqs, d, value), r.cost, LimitFor(l, d), r.now - 1000 * l.windowSeconds)
  }

  lemma RoomUnderKey(l: Limits, reqs: seq<Request>, r: Request, d: Dimension, value: string)
    requires Positive(l) && Monotone(reqs) && Until(reqs, r.now) && 0 < r.cost
    ensures Room(Charged(l, reqs, d, value), r.cost, LimitFor(l, d), r.now - 1000 * l.windowSeconds) <==>
            |Newer(ChargesOf(l, reqs, LimitKey(d, value)), r.now - Window(l))| + r.cost <= LimitOf(l, d)
  {
    hide ChargesOf, Charged, Newer, Room, Ascending, Monotone, Until, Positive;
    ChargedIsChargesOf(l, reqs, d, value);
    HistoryAscends(l, reqs, LimitKey(d, value), r.now);
    RoomIsNewer(ChargesOf(l, reqs, LimitKey(d, value)), r.cost, LimitOf(l, d), r.now - Window(l));
  }

  /** A request is admitted exactly when its cost is positive, it names someone, and there is room for it under its
      user, its project and its address, by everything ever charged to them. */
  lemma AdmittedExactly(l: Limits, reqs: seq<Request>, r: Request)
    requires Positive(l) && Monotone(reqs + [r])
    ensures IsAdmitted(l, reqs, r) <==>
            && 0 < r.cost && (Named(r.user) || Named(r.project) || Named(r.ip))
            && RoomUnder(l, reqs, r, UserId) && RoomUnder(l, reqs, r, ProjectId) && RoomUnder(l, reqs, r, IpAddress)
  {
    hide IsAdmitted, Charged, ChargesOf, Newer, Room, Monotone, Until, Positive, Window;
    AdmittedByHistory(l, reqs, r);
    MonotonePrefix(reqs, r);
    if 0 < r.cost {
      forall d, value
        ensures CountsUnder(r, d, value) <==> LimitKey(d, value) in KeysOf(r)
        ensures Room(Charged(l, reqs, d, value), r.cost, LimitFor(l, d), r.now - 1000 * l.windowSeconds) <==>
                |Newer(ChargesOf(l, reqs, LimitKey(d, value)), r.now - Window(l))| + r.cost <= LimitOf(l, d)
      {
        KeysAreFields(r, d, value);
        RoomUnderKey(l, reqs, r, d, value);
      }
      KeysByDimension(r);
    }
  }

  lemma KeysByDimension(r: Request)
    ensures KeysOf(r) != [] <==> Named(r.user) || Named(r.project) || Named(r.ip)
    ensures forall k | k in KeysOf(r) :: CountsUnder(r, k.dimension, k.value)
  {
  }

  /** The sliding-window bound over the charges of one user, project or address: of any `limit + 1` consecutive ones,
      the last is at least a window after the first. */
  lemma ChargesAreSpaced(l: Limits, reqs: seq<Request>, d: Dimension, value: string, i: nat)
    requires Positive(l) && Monotone(reqs)
    ensures var h := Charged(l, reqs, d, value);
            i + LimitFor(l, d) < |h| ==> h[i] + 1000 * l.windowSeconds <= h[i + LimitFor(l, d)]
  {
    hide Charged, ChargesOf, Within, Monotone, Window;
    var k := LimitKey(d, value);
    var h, n := ChargesOf(l, reqs, k), LimitOf(l, d);
    ChargedIsChargesOf(l, reqs, d, value);
    if reqs != [] {
      MonotoneUntil(reqs);
      HistoryAscends(l, reqs, k, reqs[|reqs| - 1].now);
    } else {
      NoHistory(l, k);
    }
    if i + n < |h| && h[i + n] < h[i] + Window(l) {
      WindowBound(l, reqs, k, h[i]);
      WithinCounts(h, i, i + n + 1, h[i], Window(l));
    }
    WindowIs(l);
  }

  lemma WindowIs(l: Limits)
    ensures Window(l) == 1000 * l.windowSeconds
  {
  }

  lemma NoHistory(l: Limits, k: LimitKey)
    ensures ChargesOf(l, [], k) == []
  {
  }

  lemma MonotoneUntil(reqs: seq<Request>)
    requires Monotone(reqs) && reqs != []
    ensures Until(reqs, reqs[|reqs| - 1].now)
  {
  }

  lemma {:induction false} WithinKeepsAll(h: seq<int>, from: int, length: int)
    requires forall i | 0 <= i < |h| :: from <= h[i] < from + length
    ensures Within(h, from, length) == h
    decreases |h|
  {
    if h != [] {
      WithinKeepsAll(h[..|h| - 1], from, length);
    }
  }

  lemma WithinCounts(h: seq<int>, a: nat, b: nat, from: int, length: int)
    requires Ascending(h) && a < b <= |h| && from <= h[a] && h[b - 1] < from + length
    ensures b - a <= |Within(h, from, length)|
  {
    hide Within;
    assert h == h[..a] + (h[a..b] + h[b..]);
    WithinAppends(h[..a], h[a..b] + h[b..], from, length);
    WithinAppends(h[a..b], h[b..], from, length);
    WithinKeepsAll(h[a..b], from, length);
  }

  /** Whether a check counts at all: a cost that is not positive is an error, and a request that names no user, no
      project and no address is not limited. */
  lemma AnswerKinds(l: Limits, events: Deques, r: Request)
    ensures var verdict := Decide(l, events, r).1;
            && (verdict == BadCost <==> r.cost <= 0)
            && (verdict == Unlimited <==> 0 < r.cost && !Named(r.user) && !Named(r.project) && !Named(r.ip))
            && (verdict.BadCost? || verdict.Unlimited? ==> Decide(l, events, r).0 == events)
  {
    hide Prepare, Charge, RetryAfter;
  }

  /** The first dimension of a request, in the order user, project, address. */
  function Primary(r: Request): Dimension {
    if Named(r.user) then UserId else if Named(r.project) then ProjectId else IpAddress
  }

  /** A refusal names the first full dimension in the order user, project, address, with that dimension's limit. */
  lemma RefusalNamesFirstFull(l: Limits, reqs: seq<Request>, r: Request)
    requires Positive(l) && Monotone(reqs + [r]) && Decide(l, RunAll(l, reqs), r).1.Limited?
    ensures var verdict := Decide(l, RunAll(l, reqs), r).1;
            && verdict.limit == LimitFor(l, verdict.dimension)
            && verdict.dimension ==
               (if !RoomUnder(l, reqs, r, UserId) then UserId
                else if !RoomUnder(l, reqs, r, ProjectId) then ProjectId
                else IpAddress)
            && !RoomUnder(l, reqs, r, verdict.dimension)
  {
    hide Decide, KeysOf, RunAll, Charged, Room, Monotone, Until, Positive, CountsUnder;
    MonotonePrefix(reqs, r);
    RefusedAsks(l, RunAll(l, reqs), r);
    var i := RefusedAt(l, RunAll(l, reqs), r);
    var keys := KeysOf(r);
    forall j | 0 <= j <= i ensures RoomUnder(l, reqs, r, keys[j].dimension) <==> j < i {
      RoomIsFit(l, reqs, r, j);
    }
    KeysInOrder(r);
    forall d | forall j | 0 <= j < |keys| :: keys[j].dimension != d ensures RoomUnder(l, reqs, r, d) {
      NotCounted(r, d);
    }
  }

  /** Which dimensions the keys name, and in which order. */
  lemma KeysInOrder(r: Request)
    ensures var keys := KeysOf(r);
            && (forall i, j | 0 <= i < j < |keys| :: Rank(keys[i].dimension) < Rank(keys[j].dimension))
            && |keys| <= 3
  {
  }

  function Rank(d: Dimension): nat {
    match d
    case UserId => 0
    case ProjectId => 1
    case IpAddress => 2
  }

  lemma NotCounted(r: Request, d: Dimension)
    requires forall j | 0 <= j < |KeysOf(r)| :: KeysOf(r)[j].dimension != d
    ensures forall value :: !CountsUnder(r, d, value)
  {
    forall value ensures !CountsUnder(r, d, value) {
      KeysAreFields(r, d, value);
    }
  }

  lemma OneValue(r: Request, j: nat)
    requires j < |KeysOf(r)|
    ensures forall value :: CountsUnder(r, KeysOf(r)[j].dimension, value) <==> value == KeysOf(r)[j].value
  {
  }

  lemma RoomIsFit(l: Limits, reqs: seq<Request>, r: Request, j: nat)
    requires Positive(l) && Monotone(reqs) && Until(reqs, r.now) && 0 < r.cost && j < |KeysOf(r)|
    ensures var k := KeysOf(r)[j];
            RoomUnder(l, reqs, r, k.dimension) <==> Fits(l, DequeOf(RunAll(l, reqs), k), k, r.cost, r.now)
  {
    hide KeysOf, RunAll, DequeOf, Charged, ChargesOf, Room, Newer, Pruned, Monotone, Until, Positive, CountsUnder,
         Ascending, AtMost;
    var k := KeysOf(r)[j];
    OneValue(r, j);
    RoomUnderKey(l, reqs, r, k.dimension, k.value);
    DequeRefinesHistory(l, reqs, k, r.now);
    assert k == LimitKey(k.dimension, k.value);
  }

  lemma {:induction false} StopsAtFirst(l: Limits, events: Deques, keys: seq<LimitKey>, cost: int, now: int)
    returns (i: nat)
    requires Distinct(keys) && Prepare(l, events, keys, cost, now).1.Some?
    ensures i < |keys| && keys[i] == Prepare(l, events, keys, cost, now).1.value
    ensures forall j | 0 <= j <= i :: Fits(l, DequeOf(events, keys[j]), keys[j], cost, now) <==> j < i
    decreases |keys|
  {
    hide Pruned, Window, LimitOf;
    var q := Pruned(DequeOf(events, keys[0]), now - Window(l));
    if |q| + cost > LimitOf(l, keys[0].dimension) {
      i := 0;
    } else {
      var next := events[keys[0] := q];
      var rest := StopsAtFirst(l, next, keys[1..], cost, now);
      i := rest + 1;
      forall j | 0 <= j <= i ensures Fits(l, DequeOf(events, keys[j]), keys[j], cost, now) <==> j < i {
        if j != 0 {
          assert keys[j] == keys[1..][j - 1] && keys[j] != keys[0];
          assert DequeOf(next, keys[j]) == DequeOf(events, keys[j]);
        }
      }
    }
  }

  lemma RefusedAt(l: Limits, events: Deques, r: Request) returns (i: nat)
    requires Decide(l, events, r).1.Limited?
    ensures i < |KeysOf(r)|
    ensures var verdict, k := Decide(l, events, r).1, KeysOf(r)[i];
            && verdict.dimension == k.dimension && verdict.limit == LimitFor(l, k.dimension)
    ensures forall j | 0 <= j <= i ::
              Fits(l, DequeOf(events, KeysOf(r)[j]), KeysOf(r)[j], r.cost, r.now) <==> j < i
  {
    hide Prepare, KeysOf, Pruned, Charge, RetryAfter;
    KeysDistinct(r);
    i := StopsAtFirst(l, events, KeysOf(r), r.cost, r.now);
  }

  /** An admission answers for the first dimension that the request names: its limit, the room left under it, and the
      moment at which the oldest of its recent charges leaves the window. */
  lemma AdmissionSays(l: Limits, reqs: seq<Request>, r: Request)
    requires Positive(l) && Monotone(reqs + [r]) && IsAdmitted(l, reqs, r)
    ensures var answer, d := Decide(l, RunAll(l, reqs), r).1, Primary(r);
            && answer.Admitted? && answer.limit == LimitFor(l, d)
            && forall value | CountsUnder(r, d, value) ::
                 var h, left := Charged(l, reqs + [r], d, value), answer.remaining;
                 && 0 <= left < answer.limit && answer.limit - left <= |h|
                 && answer.resetAt == h[|h| - (answer.limit - left)] + 1000 * l.windowSeconds
                 && r.now < answer.resetAt
                 && (answer.limit - left == |h|
                     || h[|h| - (answer.limit - left) - 1] <= r.now - 1000 * l.windowSeconds)
  {
    hide Decide, KeysOf, RunAll, Charged, ChargesOf, Newer, Monotone, Until, Positive, CountsUnder,
         Ascending, IsAdmitted;
    AdmissionAnswer(l, reqs, r);
    AdmittedMeans(l, reqs, r);
    var k := KeysOf(r)[0];
    OneValue(r, 0);
    PrimaryIsFirst(r);
    MonotoneUntil(reqs + [r]);
    var all := reqs + [r];
    HistoryAscends(l, all, k, r.now);
    ChargedIsChargesOf(l, all, k.dimension, k.value);
    WindowIs(l);
    NewerIsSuffix(ChargesOf(l, all, k), r.now - Window(l));
  }

  lemma PrimaryIsFirst(r: Request)
    requires KeysOf(r) != []
    ensures KeysOf(r)[0].dimension == Primary(r)
  {
  }

  lemma NewerIsSuffix(h: seq<int>, cutoff: int)
    requires Ascending(h)
    ensures var n := |h| - |Newer(h, cutoff)|;
            && 0 <= n && Newer(h, cutoff) == h[n..]
            && (forall i | 0 <= i < n :: h[i] <= cutoff) && (forall i | n <= i < |h| :: cutoff < h[i])
  {
    hide Newer;
    var n := FirstNewer(h, cutoff);
    NewerSplits(h, cutoff, n);
  }
}
