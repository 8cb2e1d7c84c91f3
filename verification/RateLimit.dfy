/** The sliding-window rate limiter of the dashboard (dashboard/internal/ratelimit/ratelimit.go). */
module RateLimit {
  import opened Numeric

  datatype Decision = Decision(allowed: bool, windowCount: nat, windowStart: Option<int>)

  const UNLIMITED := Decision(true, 0, None)

  // ---- Deciding -------------------------------------------------------------

  // The entries from the first one behind the cutoff on.
  function Pruned(hits: seq<int>, cutoff: int): seq<int> {
    if hits != [] && hits[0] <= cutoff then Pruned(hits[1..], cutoff) else hits
  }

  function HitsOf(hits: map<string, seq<int>>, key: string): seq<int> {
    if key in hits then hits[key] else []
  }

  function Decided(limit: int, window: int, hits: map<string, seq<int>>, key: string,
          now: int): (map<string, seq<int>>, Decision) {
    if limit <= 0 || window <= 0 || key == "" then (hits, UNLIMITED)
    else
      var kept := Pruned(HitsOf(hits, key), now - window);
      if |kept| >= limit then (hits[key := kept], Decision(false, |kept|, Some(now - window)))
      else (hits[key := kept + [now]], Decision(true, |kept| + 1, Some(now - window)))
  }

  class Limiter {
    const limit: int
    const window: int
    var hits: map<string, seq<int>>

    constructor (limit: int, window: int)
      ensures this.limit == limit && this.window == window && hits == map[]
    {
      this.limit, this.window, hits := limit, window, map[];
    }

    method Decide(key: string, now: int) returns (d: Decision)
      modifies this
      ensures (hits, d) == Decided(limit, window, old(hits), key, now)
    {
      if limit <= 0 || window <= 0 || key == "" {
        return UNLIMITED;
      }
      var cutoff := now - window;
      var mine := HitsOf(hits, key);
      var i := 0;
      assert mine[0..] == mine;
      while i < |mine| && mine[i] <= cutoff
        invariant 0 <= i <= |mine| && Pruned(mine, cutoff) == Pruned(mine[i..], cutoff)
      {
        assert mine[i..][1..] == mine[i + 1..];
        i := i + 1;
      }
      if i > 0 {
        mine := mine[i..];
      }
      if |mine| >= limit {
        hits := hits[key := mine];
        return Decision(false, |mine|, Some(cutoff));
      }
      mine := mine + [now];
      hits := hits[key := mine];
      return Decision(true, |mine|, Some(cutoff));
    }
  }

  // ---- Runs -----------------------------------------------------------------

  datatype Asked = Asked(key: string, now: int)

  function Run(limit: int, window: int, asked: seq<Asked>): map<string, seq<int>> {
    if asked == [] then map[]
    else
      var last := asked[|asked| - 1];
      Decided(limit, window, Run(limit, window, asked[..|asked| - 1]), last.key, last.now).0
  }

  // The answer to the last request of a run.
  function Answer(limit: int, window: int, asked: seq<Asked>): Decision
    requires asked != []
  {
    var last := asked[|asked| - 1];
    Decided(limit, window, Run(limit, window, asked[..|asked| - 1]), last.key, last.now).1
  }

  // The times of the requests for a key that were allowed: the full history.
  function AllowedTimes(limit: int, window: int, asked: seq<Asked>, key: string): seq<int> {
    if asked == [] then []
    else
      var last := asked[|asked| - 1];
      AllowedTimes(limit, window, asked[..|asked| - 1], key) +
      if last.key == key && Answer(limit, window, asked).allowed then [last.now] else []
  }

  // The entries of a history that lie in (from, to].
  function Within(times: seq<int>, from: int, to: int): seq<int> {
    if times == [] then []
    else (if from < times[0] <= to then [times[0]] else []) + Within(times[1..], from, to)
  }

  // The requests for the key come to their decision in the order of the times they read. Those for
  // other keys may come in any order.
  predicate ClockAscends(asked: seq<Asked>, key: string) {
    forall i, j :: 0 <= i <= j < |asked| && asked[i].key == key && asked[j].key == key ==> asked[i].now <= asked[j].now
  }

  predicate AskedBy(asked: seq<Asked>, key: string, now: int) {
    forall i :: 0 <= i < |asked| && asked[i].key == key ==> asked[i].now <= now
  }

  predicate Ascending(times: seq<int>) {
    forall i, j :: 0 <= i <= j < |times| ==> times[i] <= times[j]
  }

  // ---- Sorted histories -----------------------------------------------------

  lemma {:induction false} AllWithin(times: seq<int>, from: int, to: int)
    requires forall k :: 0 <= k < |times| ==> from < times[k] <= to
    ensures Within(times, from, to) == times
  {
    if times != [] {
      AllWithin(times[1..], from, to);
      assert times == [times[0]] + times[1..];
    }
  }

  lemma {:induction false} NoneBefore(old_: seq<int>, times: seq<int>, from: int, to: int)
    requires forall k :: 0 <= k < |old_| ==> old_[k] <= from
    ensures Within(old_ + times, from, to) == Within(times, from, to)
  {
    if old_ == [] {
      assert old_ + times == times;
    } else {
      NoneBefore(old_[1..], times, from, to);
      assert (old_ + times)[1..] == old_[1..] + times && (old_ + times)[0] == old_[0];
    }
  }

  // In an ascending list that ends by now, pruning keeps what is behind the cutoff.
  lemma {:induction false} PrunedIsWithinOf(hits: seq<int>, cutoff: int, now: int)
    requires Ascending(hits) && forall k :: 0 <= k < |hits| ==> hits[k] <= now
    ensures Pruned(hits, cutoff) == Within(hits, cutoff, now)
  {
    if hits != [] {
      if hits[0] <= cutoff {
        PrunedIsWithinOf(hits[1..], cutoff, now);
      } else {
        AllWithin(hits, cutoff, now);
      }
    }
  }

  lemma {:induction false} PrunedIsSuffix(hits: seq<int>, cutoff: int)
    ensures |Pruned(hits, cutoff)| <= |hits| && Pruned(hits, cutoff) == hits[|hits| - |Pruned(hits, cutoff)|..]
    ensures forall k :: 0 <= k < |hits| - |Pruned(hits, cutoff)| ==> hits[k] <= cutoff
  {
    if hits != [] && hits[0] <= cutoff {
      PrunedIsSuffix(hits[1..], cutoff);
    }
  }

  predicate Spaced(times: seq<int>, limit: int, window: int) {
    forall k :: 0 < limit <= k < |times| ==> times[k] - times[k - limit] >= window
  }

  lemma {:induction false} FewWithin(times: seq<int>, from: int, to: int, m: nat)
    requires forall k :: m <= k < |times| ==> times[k] > to
    ensures |Within(times, from, to)| <= m
  {
    if times != [] {
      FewWithin(times[1..], from, to, if m == 0 then 0 else m - 1);
    }
  }

  // A list in which every limit-th entry is a window later has at most limit entries in any window.
  lemma {:induction false} SpacedFits(times: seq<int>, limit: int, window: int, t: int)
    requires limit > 0 && Ascending(times) && Spaced(times, limit, window)
    ensures |Within(times, t - window, t)| <= limit
  {
    if times != [] {
      if t - window < times[0] {
        forall k | limit <= k < |times|
          ensures times[k] > t
        {
          assert times[limit] - times[limit - limit] >= window;
        }
        FewWithin(times, t - window, t, limit);
      } else {
        SpacedFits(times[1..], limit, window, t);
      }
    }
  }

  // ---- What the limiter keeps -----------------------------------------------

  // The list kept for a key is the end of its full history, and what it lacks is out of every window
  // to come.
  ghost predicate Keeps(limit: int, window: int, history: seq<int>, hits: seq<int>, now: int) {
    |hits| <= |history| && hits == history[|history| - |hits|..] &&
    (forall k :: 0 <= k < |history| - |hits| ==> history[k] <= now - window) &&
    Ascending(history) && (forall k :: 0 <= k < |history| ==> history[k] <= now) && Spaced(history, limit, window)
  }

  // Pruning leaves exactly the part of the full history that lies in the trailing window.
  lemma PrunedIsWithin(limit: int, window: int, history: seq<int>, hits: seq<int>, before: int, now: int)
    requires Keeps(limit, window, history, hits, before) && before <= now
    ensures Pruned(hits, now - window) == Within(history, now - window, now)
  {
    hide Within, Pruned, Spaced;
    var gone := history[..|history| - |hits|];
    assert history == gone + hits;
    PrunedIsWithinOf(hits, now - window, now);
    NoneBefore(gone, hits, now - window, now);
  }

  lemma PruneKeeps(limit: int, window: int, history: seq<int>, hits: seq<int>, before: int, now: int)
    requires Keeps(limit, window, history, hits, before) && before <= now
    ensures Keeps(limit, window, history, Pruned(hits, now - window), now)
  {
    PrunedIsSuffix(hits, now - window);
    hide Pruned, Spaced, Ascending;
    var kept := Pruned(hits, now - window);
    var gone := |history| - |hits|;
    assert kept == history[|history| - |kept|..];
    forall k | 0 <= k < |history| - |kept|
      ensures history[k] <= now - window
    {
      if k >= gone {
        assert history[k] == hits[k - gone];
      }
    }
  }

  lemma RecordKeeps(limit: int, window: int, history: seq<int>, kept: seq<int>, now: int)
    requires Keeps(limit, window, history, kept, now) && window > 0 && |kept| < limit
    ensures Keeps(limit, window, history + [now], kept + [now], now)
  {
    var h := history + [now];
    forall k | limit <= k < |h|
      ensures h[k] - h[k - limit] >= window
    {
      if k < |history| {
        assert history[k] - history[k - limit] >= window;
      }
    }
    hide Spaced;
    assert Spaced(h, limit, window) by {
      SpacedIs(h, limit, window);
    }
  }

  lemma SpacedIs(times: seq<int>, limit: int, window: int)
    requires forall k :: limit <= k < |times| && limit > 0 ==> times[k] - times[k - limit] >= window
    ensures Spaced(times, limit, window)
  {
  }

  lemma NothingKeeps(limit: int, window: int, now: int)
    ensures Keeps(limit, window, [], [], now)
  {
  }

  lemma LaterKeeps(limit: int, window: int, history: seq<int>, hits: seq<int>, before: int, now: int)
    requires Keeps(limit, window, history, hits, before) && before <= now
    ensures Keeps(limit, window, history, hits, now)
  {
    hide Spaced, Ascending;
  }

  // The invariant over a run, for one key.
  lemma {:induction false} RunKeeps(limit: int, window: int, asked: seq<Asked>, key: string, now: int)
    requires limit > 0 && window > 0 && key != "" && ClockAscends(asked, key) && AskedBy(asked, key, now)
    ensures Keeps(limit, window, AllowedTimes(limit, window, asked, key), HitsOf(Run(limit, window, asked), key), now)
  {
    hide Pruned, Run, AllowedTimes, HitsOf, Keeps, ClockAscends, AskedBy;
    if asked == [] {
      EmptyRun(limit, window, key);
      NothingKeeps(limit, window, now);
    } else {
      var front, last := asked[..|asked| - 1], asked[|asked| - 1];
      FrontAscends(asked, key, now);
      StepOf(limit, window, asked, key);
      if last.key != key {
        RunKeeps(limit, window, front, key, now);
      } else {
        RunKeeps(limit, window, front, key, last.now);
        var history, hits := AllowedTimes(limit, window, front, key), HitsOf(Run(limit, window, front), key);
        var kept := Pruned(hits, last.now - window);
        PruneKeeps(limit, window, history, hits, last.now, last.now);
        if |kept| < limit {
          RecordKeeps(limit, window, history, kept, last.now);
        }
        LaterKeeps(limit, window, AllowedTimes(limit, window, asked, key), HitsOf(Run(limit, window, asked), key), last.now, now);
      }
    }
  }

  lemma EmptyRun(limit: int, window: int, key: string)
    ensures AllowedTimes(limit, window, [], key) == [] && HitsOf(Run(limit, window, []), key) == []
  {
  }

  lemma FrontAscends(asked: seq<Asked>, key: string, now: int)
    requires ClockAscends(asked, key) && asked != [] && AskedBy(asked, key, now)
    ensures var front, last := asked[..|asked| - 1], asked[|asked| - 1];
            ClockAscends(front, key) && AskedBy(front, key, now) && (last.key == key ==> AskedBy(front, key, last.now) && last.now <= now)
  {
  }

  // The latest time of the requests for a key.
  lemma {:induction false} Latest(asked: seq<Asked>, key: string) returns (now: int)
    ensures AskedBy(asked, key, now)
    decreases |asked|
  {
    now := 0;
    if asked != [] {
      now := Latest(asked[..|asked| - 1], key);
      if asked[|asked| - 1].now > now {
        now := asked[|asked| - 1].now;
      }
    }
  }

  // One step of a run as seen by one key.
  lemma StepOf(limit: int, window: int, asked: seq<Asked>, key: string)
    requires limit > 0 && window > 0 && key != "" && asked != []
    ensures var front, last := asked[..|asked| - 1], asked[|asked| - 1];
            var history, hits := AllowedTimes(limit, window, front, key), HitsOf(Run(limit, window, front), key);
            var kept := Pruned(hits, last.now - window);
            var history', hits' := AllowedTimes(limit, window, asked, key), HitsOf(Run(limit, window, asked), key);
            if last.key != key then history' == history && hits' == hits
            else if |kept| >= limit then history' == history && hits' == kept
            else history' == history + [last.now] && hits' == kept + [last.now]
  {
  }

  // ---- The guarantees -------------------------------------------------------

  // At every instant at most limit requests for a key were allowed in the window that ends there.
  lemma AtMostLimitInWindow(limit: int, window: int, asked: seq<Asked>, key: string, t: int)
    requires limit > 0 && window > 0 && key != "" && ClockAscends(asked, key)
    ensures |Within(AllowedTimes(limit, window, asked, key), t - window, t)| <= limit
  {
    var now := Latest(asked, key);
    RunKeeps(limit, window, asked, key, now);
    hide AllowedTimes, Run, Within;
    SpacedFits(AllowedTimes(limit, window, asked, key), limit, window, t);
  }

  // A request is decided by the full history: it is allowed exactly when fewer than limit requests
  // for its key were allowed in the window behind it, and the count reported is that number, the
  // request itself included when it is allowed.
  lemma DecidedByHistory(limit: int, window: int, asked: seq<Asked>)
    requires limit > 0 && window > 0 && asked != [] && asked[|asked| - 1].key != "" && ClockAscends(asked, asked[|asked| - 1].key)
    ensures var last := asked[|asked| - 1];
            var recent := Within(AllowedTimes(limit, window, asked[..|asked| - 1], last.key), last.now - window, last.now);
            var d := Answer(limit, window, asked);
            d == Decision(|recent| < limit, if |recent| < limit then |recent| + 1 else |recent|, Some(last.now - window)) &&
            (!d.allowed ==> |recent| == limit)
  {
    hide AllowedTimes, Run, Within, Pruned, Keeps;
    var front, last := asked[..|asked| - 1], asked[|asked| - 1];
    var now := Latest(asked, last.key);
    FrontAscends(asked, last.key, now);
    AtMostLimitInWindow(limit, window, front, last.key, last.now);
    RunKeeps(limit, window, front, last.key, last.now);
    PrunedIsWithin(limit, window, AllowedTimes(limit, window, front, last.key), HitsOf(Run(limit, window, front), last.key), last.now, last.now);
  }

  // ---- A clock out of order -------------------------------------------------

  // With a limit of one the list holds the last request allowed, whatever the order of the times.
  ghost predicate KeepsLast(window: int, history: seq<int>, hits: seq<int>) {
    hits == (if history == [] then [] else [history[|history| - 1]]) && Ascending(history) && Spaced(history, 1, window)
  }

  lemma LastStep(window: int, history: seq<int>, hits: seq<int>, now: int)
    requires window > 0 && KeepsLast(window, history, hits)
    ensures var kept := Pruned(hits, now - window);
            if |kept| >= 1 then KeepsLast(window, history, kept) else KeepsLast(window, history + [now], kept + [now])
  {
    assert hits != [] ==> hits[1..] == [];
    var h := history + [now];
    if history != [] && hits[0] <= now - window {
      var last := history[|history| - 1];
      forall k | 0 <= k < |history|
        ensures history[k] <= last
      {
      }
      forall k | 1 <= k < |h|
        ensures h[k] - h[k - 1] >= window
      {
        assert k < |history| ==> history[k] - history[k - 1] >= window;
      }
    }
  }

  lemma {:induction false} RunKeepsLast(window: int, asked: seq<Asked>, key: string)
    requires window > 0 && key != ""
    ensures KeepsLast(window, AllowedTimes(1, window, asked, key), HitsOf(Run(1, window, asked), key))
  {
    hide Pruned, Run, AllowedTimes, HitsOf;
    if asked == [] {
      EmptyRun(1, window, key);
    } else {
      hide KeepsLast;
      var front, last := asked[..|asked| - 1], asked[|asked| - 1];
      RunKeepsLast(window, front, key);
      StepOf(1, window, asked, key);
      LastStep(window, AllowedTimes(1, window, front, key), HitsOf(Run(1, window, front), key), last.now);
    }
  }

  const KEY := "k"

  // As many requests as the limit at time 0, one a window later, and one that read its clock at 0 again.
  function Burst(n: nat): seq<Asked> {
    if n == 0 then [] else Burst(n - 1) + [Asked(KEY, 0)]
  }

  function OutOfOrder(limit: nat, window: int): seq<Asked> {
    Burst(limit) + [Asked(KEY, window)] + [Asked(KEY, 0)]
  }

  function Zeros(n: nat): (zeros: seq<int>)
    ensures |zeros| == n && forall i :: 0 <= i < n ==> zeros[i] == 0
  {
    if n == 0 then [] else Zeros(n - 1) + [0]
  }

  lemma {:induction false} NonePruned(hits: seq<int>, cutoff: int)
    requires forall i :: 0 <= i < |hits| ==> hits[i] > cutoff
    ensures Pruned(hits, cutoff) == hits
  {
  }

  lemma {:induction false} AllPruned(hits: seq<int>, cutoff: int)
    requires forall i :: 0 <= i < |hits| ==> hits[i] <= cutoff
    ensures Pruned(hits, cutoff) == []
  {
    if hits != [] {
      AllPruned(hits[1..], cutoff);
    }
  }

  lemma {:induction false} BurstIsAllowed(limit: int, window: int, n: nat)
    requires window > 0 && n <= limit
    ensures AllowedTimes(limit, window, Burst(n), KEY) == Zeros(n) == HitsOf(Run(limit, window, Burst(n)), KEY)
  {
    hide Pruned, Run, AllowedTimes, HitsOf;
    if n == 0 {
      EmptyRun(limit, window, KEY);
    } else {
      BurstIsAllowed(limit, window, n - 1);
      StepOf(limit, window, Burst(n), KEY);
      assert Burst(n)[..n - 1] == Burst(n - 1) by {
        BurstLength(n - 1);
      }
      BurstLength(n);
      NonePruned(Zeros(n - 1), -window);
    }
  }

  lemma {:induction false} BurstLength(n: nat)
    ensures |Burst(n)| == n
  {
    if n > 0 {
      BurstLength(n - 1);
    }
  }

  // The request out of order is allowed, and its window then holds one request too many.
  lemma OutOfOrderIsAllowed(limit: int, window: int)
    requires limit >= 2 && window > 0
    ensures |Within(AllowedTimes(limit, window, OutOfOrder(limit, window), KEY), 0 - window, 0)| == limit + 1
  {
    hide Pruned, Run, AllowedTimes, HitsOf, Within, Burst, Zeros;
    BurstIsAllowed(limit, window, limit);
    var a := Burst(limit);
    var b := a + [Asked(KEY, window)];
    var c := OutOfOrder(limit, window);
    assert b[..|b| - 1] == a && b[|b| - 1] == Asked(KEY, window);
    assert c[..|c| - 1] == b && c[|c| - 1] == Asked(KEY, 0);
    AllPruned(Zeros(limit), window - window);
    StepOf(limit, window, b, KEY);
    assert AllowedTimes(limit, window, b, KEY) == Zeros(limit) + [window];
    assert HitsOf(Run(limit, window, b), KEY) == [] + [window] == [window];
    NonePruned([window], 0 - window);
    StepOf(limit, window, c, KEY);
    var times := AllowedTimes(limit, window, c, KEY);
    assert times == (Zeros(limit) + [window]) + [0] == Zeros(limit) + ([window] + [0]);
    WithinParts(Zeros(limit), [window] + [0], 0 - window, 0);
    WithinParts([window], [0], 0 - window, 0);
    AllWithin(Zeros(limit), 0 - window, 0);
    AllWithin([0], 0 - window, 0);
    LaterIsOut(window);
  }

  lemma LaterIsOut(window: int)
    requires window > 0
    ensures Within([window], 0 - window, 0) == []
  {
    assert [window][1..] == [];
  }

  lemma WithinFirst(time: int, rest: seq<int>, from: int, to: int)
    ensures Within([time] + rest, from, to) == (if from < time <= to then [time] else []) + Within(rest, from, to)
  {
    assert ([time] + rest)[1..] == rest;
  }

  lemma {:induction false} WithinParts(a: seq<int>, b: seq<int>, from: int, to: int)
    ensures Within(a + b, from, to) == Within(a, from, to) + Within(b, from, to)
  {
    hide Within;
    if a == [] {
      NothingWithin(from, to);
      assert a + b == b && [] + Within(b, from, to) == Within(b, from, to);
    } else {
      WithinParts(a[1..], b, from, to);
      WithinFirst(a[0], a[1..], from, to);
      WithinFirst(a[0], a[1..] + b, from, to);
      Rejoined(a, b);
      Associative(if from < a[0] <= to then [a[0]] else [], Within(a[1..], from, to), Within(b, from, to));
    }
  }

  lemma NothingWithin(from: int, to: int)
    ensures Within([], from, to) == []
  {
  }

  lemma Rejoined(a: seq<int>, b: seq<int>)
    requires a != []
    ensures a == [a[0]] + a[1..] && a + b == [a[0]] + (a[1..] + b)
  {
  }

  lemma Associative(a: seq<int>, b: seq<int>, c: seq<int>)
    ensures (a + b) + c == a + (b + c)
  {
  }

  ghost predicate WithinLimit(limit: int, window: int, asked: seq<Asked>, key: string, t: int) {
    |Within(AllowedTimes(limit, window, asked, key), t - window, t)| <= limit
  }

  // Whatever the order in which requests for one key come to their decision, the bound holds exactly if
  // the limit is one.
  lemma AnyOrderExactly(limit: int, window: int)
    requires limit > 0 && window > 0
    ensures (forall asked, key, t: int :: key != "" ==> WithinLimit(limit, window, asked, key, t)) <==> limit == 1
  {
    hide AllowedTimes, Run, Within, HitsOf, OutOfOrder;
    if limit == 1 {
      forall asked, key, t: int | key != ""
        ensures WithinLimit(limit, window, asked, key, t)
      {
        RunKeepsLast(window, asked, key);
        SpacedFits(AllowedTimes(limit, window, asked, key), limit, window, t);
      }
    } else {
      OutOfOrderIsAllowed(limit, window);
      assert !WithinLimit(limit, window, OutOfOrder(limit, window), KEY, 0);
    }
  }
}
