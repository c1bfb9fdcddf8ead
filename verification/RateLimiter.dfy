/** The per-IP fixed-window rate limiter: counting in Redis, with a fallback to memory. */
module RateLimiter {

  /** One increment of a counter. A Redis increment is keyed by the window of the time at which
      the request was dispatched; a memory increment reads the clock itself. A lost increment is
      counted by Redis but its reply never arrives, so the request falls back to memory. */
  datatype Hit =
    | Redis(ip: string, time: real)
    | RedisLost(ip: string, time: real)
    | Memory(ip: string, time: real)

  function Window(time: real): int {
    (time / 60.0).Floor
  }

  datatype Cell = Cell(count: nat, window: int)

  /** The `_local` dictionary and the counters held by Redis. */
  datatype Counters = Counters(local: map<string, Cell>, redis: map<(string, int), nat>)

  const START := Counters(map[], map[])

  /** `_local` is a defaultdict of (0, 0.0). */
  function CellOf(counters: Counters, ip: string): Cell {
    if ip in counters.local then counters.local[ip] else Cell(0, 0)
  }

  function RedisCount(counters: Counters, ip: string, window: int): nat {
    if (ip, window) in counters.redis then counters.redis[(ip, window)] else 0
  }

  /** The count a hit produces. */
  function CountAfter(counters: Counters, hit: Hit): nat {
    match hit
    case Memory(ip, time) =>
      var cell := CellOf(counters, ip);
      if cell.window != Window(time) then 1 else cell.count + 1
    case _ => RedisCount(counters, hit.ip, Window(hit.time)) + 1
  }

  function Apply(counters: Counters, hit: Hit): Counters {
    match hit
    case Memory(ip, time) =>
      counters.(local := counters.local[ip := Cell(CountAfter(counters, hit), Window(time))])
    case _ =>
      counters.(redis := counters.redis[(hit.ip, Window(hit.time)) := CountAfter(counters, hit)])
  }

  /** Whether a hit lets its request through; a lost hit decides nothing. */
  predicate Admits(limit: nat, counters: Counters, hit: Hit) {
    !hit.RedisLost? && CountAfter(counters, hit) <= limit
  }

  /** X-RateLimit-Remaining */
  function Left(limit: nat, count: nat): nat {
    if count < limit then limit - count else 0
  }

  datatype RedisReply = NoClient | Replied | FailedBefore | FailedAfter

  class RateLimitMiddleware {
    const limit: nat
    var local: map<string, Cell>
    var redis: map<(string, int), nat>

    constructor (limitPerMinute: int)
      ensures limit == if limitPerMinute < 1 then 1 else limitPerMinute
      ensures Contents() == START
    {
      limit := if limitPerMinute < 1 then 1 else limitPerMinute;
      local, redis := map[], map[];
    }

    function Contents(): Counters
      reads this
    {
      Counters(local, redis)
    }

    /** _increment: `dispatched` is the clock when the key was built, `later` the clock read by
        the memory path. */
    method Increment(ip: string, dispatched: real, reply: RedisReply, later: real) returns (count: nat)
      modifies this
      ensures reply == Replied ==>
                && count == CountAfter(old(Contents()), Redis(ip, dispatched))
                && Contents() == Apply(old(Contents()), Redis(ip, dispatched))
      ensures reply == FailedAfter ==>
                var between := Apply(old(Contents()), RedisLost(ip, dispatched));
                && count == CountAfter(between, Memory(ip, later))
                && Contents() == Apply(between, Memory(ip, later))
      ensures reply == NoClient || reply == FailedBefore ==>
                && count == CountAfter(old(Contents()), Memory(ip, later))
                && Contents() == Apply(old(Contents()), Memory(ip, later))
    {
      if reply == Replied || reply == FailedAfter {
        var key := (ip, Window(dispatched));
        var results := if key in redis then redis[key] + 1 else 1;
        redis := redis[key := results];
        if reply == Replied {
          return results;
        }
      }
      var window := Window(later);
      var cell := if ip in local then local[ip] else Cell(0, 0);
      if cell.window != window {
        cell := Cell(0, window);
      }
      cell := Cell(cell.count + 1, cell.window);
      local := local[ip := cell];
      count := cell.count;
    }

    /** dispatch, for a path that is not exempt. */
    method Dispatch(ip: string, dispatched: real, reply: RedisReply, later: real) returns (admitted: bool, remaining: nat)
      modifies this
      ensures reply == Replied ==> admitted == Admits(limit, old(Contents()), Redis(ip, dispatched))
      ensures reply == NoClient || reply == FailedBefore ==> admitted == Admits(limit, old(Contents()), Memory(ip, later))
      ensures reply == FailedAfter ==>
                admitted == Admits(limit, Apply(old(Contents()), RedisLost(ip, dispatched)), Memory(ip, later))
      ensures reply == Replied ==> Contents() == Apply(old(Contents()), Redis(ip, dispatched))
      ensures reply == NoClient || reply == FailedBefore ==> Contents() == Apply(old(Contents()), Memory(ip, later))
      ensures reply == FailedAfter ==>
                Contents() == Apply(Apply(old(Contents()), RedisLost(ip, dispatched)), Memory(ip, later))
      ensures reply == Replied ==> remaining == Left(limit, CountAfter(old(Contents()), Redis(ip, dispatched)))
      ensures reply == NoClient || reply == FailedBefore ==>
                remaining == Left(limit, CountAfter(old(Contents()), Memory(ip, later)))
      ensures reply == FailedAfter ==>
                remaining == Left(limit, CountAfter(Apply(old(Contents()), RedisLost(ip, dispatched)), Memory(ip, later)))
    {
      var count := Increment(ip, dispatched, reply, later);
      admitted := count <= limit;
      remaining := if count <= limit then limit - count else 0;
    }
  }

  // ----- whole request sequences

  function After(hits: seq<Hit>): Counters {
    if hits == [] then START else Apply(After(hits[..|hits| - 1]), hits[|hits| - 1])
  }

  /** How many requests selected by `which` are let through. */
  function Admitted(limit: nat, hits: seq<Hit>, which: Hit -> bool): nat {
    if hits == [] then 0
    else
      var init, last := hits[..|hits| - 1], hits[|hits| - 1];
      Admitted(limit, init, which) + if which(last) && Admits(limit, After(init), last) then 1 else 0
  }

  /** How many requests are selected, let through or not. */
  function Count(hits: seq<Hit>, which: Hit -> bool): nat {
    if hits == [] then 0 else Count(hits[..|hits| - 1], which) + if which(hits[|hits| - 1]) then 1 else 0
  }

  /** The clock read by the memory path for one IP does not go back to an earlier window. */
  ghost predicate MemoryClockMonotone(hits: seq<Hit>, ip: string) {
    forall i, j | 0 <= i < j < |hits| && hits[i].Memory? && hits[j].Memory? && hits[i].ip == hits[j].ip == ip ::
      Window(hits[i].time) <= Window(hits[j].time)
  }

  function InMemory(ip: string, window: int): Hit -> bool {
    (hit: Hit) => hit.Memory? && hit.ip == ip && Window(hit.time) == window
  }

  function Outside(ip: string, window: int): Hit -> bool {
    (hit: Hit) => hit.Memory? && hit.ip == ip && Window(hit.time) != window
  }

  /** The IP's memory requests were in the window, then in another one. */
  ghost predicate Departed(hits: seq<Hit>, ip: string, window: int) {
    exists j :: 0 <= j < |hits| && Outside(ip, window)(hits[j]) && Count(hits[..j], InMemory(ip, window)) > 0
  }

  /** The IP's memory requests were in the window, then in another one, then in the window again. */
  ghost predicate Reentered(hits: seq<Hit>, ip: string, window: int) {
    exists k :: 0 <= k < |hits| && InMemory(ip, window)(hits[k]) && Departed(hits[..k], ip, window)
  }

  function InRedis(ip: string, window: int): Hit -> bool {
    (hit: Hit) => hit.Redis? && hit.ip == ip && Window(hit.time) == window
  }

  /** Every request of an IP counted in a window, by whichever counter. */
  function InWindow(ip: string, window: int): Hit -> bool {
    (hit: Hit) => hit.ip == ip && Window(hit.time) == window
  }

  /** Every request of an IP within sixty seconds. */
  function InSpan(ip: string, start: real): Hit -> bool {
    (hit: Hit) => hit.ip == ip && start <= hit.time < start + 60.0
  }

  lemma OneMoreHit(limit: nat, hits: seq<Hit>, hit: Hit, which: Hit -> bool)
    ensures After(hits + [hit]) == Apply(After(hits), hit)
    ensures Admitted(limit, hits + [hit], which) ==
            Admitted(limit, hits, which) + if which(hit) && Admits(limit, After(hits), hit) then 1 else 0
  {
    assert (hits + [hit])[..|hits|] == hits;
  }

  lemma {:induction false} SelectedIsCounted(hits: seq<Hit>, which: Hit -> bool)
    ensures Count(hits, which) > 0 <==> exists i :: 0 <= i < |hits| && which(hits[i])
  {
    if hits != [] {
      var init := hits[..|hits| - 1];
      SelectedIsCounted(init, which);
      if i :| 0 <= i < |init| && which(init[i]) {
        assert which(hits[i]);
      }
      if i :| 0 <= i < |hits| && which(hits[i]) {
        assert i < |init| ==> which(init[i]);
      }
    }
  }

  lemma DepartedStep(init: seq<Hit>, last: Hit, ip: string, window: int)
    ensures Departed(init + [last], ip, window) <==>
            Departed(init, ip, window) || (Outside(ip, window)(last) && Count(init, InMemory(ip, window)) > 0)
  {
    var hits := init + [last];
    assert hits[|init|] == last && hits[..|init|] == init;
    forall j | 0 <= j < |init| ensures hits[j] == init[j] && hits[..j] == init[..j] {
    }
  }

  lemma ReenteredStep(init: seq<Hit>, last: Hit, ip: string, window: int)
    ensures Reentered(init + [last], ip, window) <==>
            Reentered(init, ip, window) || (InMemory(ip, window)(last) && Departed(init, ip, window))
  {
    var hits := init + [last];
    assert hits[|init|] == last && hits[..|init|] == init;
    forall k | 0 <= k < |init| ensures hits[k] == init[k] && hits[..k] == init[..k] {
    }
  }

  /** What memory has admitted into a window, and how far its counter is behind the requests. */
  ghost predicate Tallied(limit: nat, hits: seq<Hit>, ip: string, window: int) {
    var admitted, count, cell := Admitted(limit, hits, InMemory(ip, window)), Count(hits, InMemory(ip, window)), CellOf(After(hits), ip);
    if Reentered(hits, ip, window) then
      && count >= 2
      && (count <= limit ==> admitted == count)
      && (count > limit >= 1 ==> admitted > limit)
      && (cell.window == window ==> cell.count < count)
    else
      && admitted == (if count <= limit then count else limit)
      && (cell.window == window ==> cell.count == count)
      && (Departed(hits, ip, window) <==> count > 0 && cell.window != window)
  }

  lemma CountStep(init: seq<Hit>, last: Hit, which: Hit -> bool)
    ensures Count(init + [last], which) == Count(init, which) + if which(last) then 1 else 0
  {
    assert (init + [last])[..|init|] == init;
  }

  lemma TallyElsewhere(limit: nat, init: seq<Hit>, last: Hit, ip: string, window: int)
    requires Tallied(limit, init, ip, window) && !InMemory(ip, window)(last)
    ensures Tallied(limit, init + [last], ip, window)
  {
    DepartedStep(init, last, ip, window);
    ReenteredStep(init, last, ip, window);
    OneMoreHit(limit, init, last, InMemory(ip, window));
    CountStep(init, last, InMemory(ip, window));
  }

  lemma TallyHere(limit: nat, init: seq<Hit>, last: Hit, ip: string, window: int)
    requires Tallied(limit, init, ip, window) && InMemory(ip, window)(last)
    ensures Tallied(limit, init + [last], ip, window)
  {
    DepartedStep(init, last, ip, window);
    ReenteredStep(init, last, ip, window);
    OneMoreHit(limit, init, last, InMemory(ip, window));
    CountStep(init, last, InMemory(ip, window));
  }

  lemma {:induction false} EveryRunIsTallied(limit: nat, hits: seq<Hit>, ip: string, window: int)
    ensures Tallied(limit, hits, ip, window)
  {
    if hits != [] {
      var init, last := hits[..|hits| - 1], hits[|hits| - 1];
      EveryRunIsTallied(limit, init, ip, window);
      assert hits == init + [last];
      if InMemory(ip, window)(last) {
        TallyHere(limit, init, last, ip, window);
      } else {
        TallyElsewhere(limit, init, last, ip, window);
      }
    }
  }

  /** Memory counting keeps to the limit in a window if and only if the IP's requests did not come
      back to the window after another one, or were too few to matter. */
  lemma MemoryWindowBoundIsExact(limit: nat, hits: seq<Hit>, ip: string, window: int)
    requires limit >= 1
    ensures Admitted(limit, hits, InMemory(ip, window)) <= limit <==>
            !Reentered(hits, ip, window) || Count(hits, InMemory(ip, window)) <= limit
  {
    EveryRunIsTallied(limit, hits, ip, window);
  }

  /** Memory counting admits at most `limit` requests of an IP per window while the clock it reads
      for that IP does not step back. */
  lemma MemoryWindowBound(limit: nat, hits: seq<Hit>, ip: string, window: int)
    requires MemoryClockMonotone(hits, ip)
    ensures Admitted(limit, hits, InMemory(ip, window)) <= limit
  {
    EveryRunIsTallied(limit, hits, ip, window);
    MonotoneNeverReenters(hits, ip, window);
  }

  lemma MonotoneNeverReenters(hits: seq<Hit>, ip: string, window: int)
    requires MemoryClockMonotone(hits, ip)
    ensures !Reentered(hits, ip, window)
  {
    forall k | 0 <= k < |hits| && InMemory(ip, window)(hits[k]) ensures !Departed(hits[..k], ip, window) {
      forall j | 0 <= j < k && Outside(ip, window)(hits[j]) ensures Count(hits[..k][..j], InMemory(ip, window)) == 0 {
        SelectedIsCounted(hits[..k][..j], InMemory(ip, window));
        assert Window(hits[j].time) <= Window(hits[k].time);
        forall i | 0 <= i < j ensures !InMemory(ip, window)(hits[..k][..j][i]) {
          assert hits[..k][..j][i] == hits[i];
        }
      }
    }
  }

  /** Redis counting admits at most `limit` requests of an IP per window. */
  /** Counted by Redis under the window, whether or not the reply arrived. */
  function Sent(ip: string, window: int): Hit -> bool {
    (hit: Hit) => !hit.Memory? && hit.ip == ip && Window(hit.time) == window
  }

  /** Redis counts every request sent to it, so that a reply leaves the limit less those and itself. */
  lemma {:induction false} RedisCountsRequests(hits: seq<Hit>, ip: string, window: int)
    ensures RedisCount(After(hits), ip, window) == Count(hits, Sent(ip, window))
  {
    if hits != [] {
      RedisCountsRequests(hits[..|hits| - 1], ip, window);
    }
  }

  lemma RedisRemaining(limit: nat, hits: seq<Hit>, ip: string, time: real)
    ensures Left(limit, CountAfter(After(hits), Redis(ip, time))) ==
            var sent := Count(hits, Sent(ip, Window(time)));
            if sent + 1 < limit then limit - sent - 1 else 0
  {
    RedisCountsRequests(hits, ip, Window(time));
  }

  /** Memory does so while the IP's requests stay in one window at a time. */
  lemma MemoryRemaining(limit: nat, hits: seq<Hit>, ip: string, time: real)
    requires !Reentered(hits + [Memory(ip, time)], ip, Window(time))
    ensures Left(limit, CountAfter(After(hits), Memory(ip, time))) ==
            var counted := Count(hits, InMemory(ip, Window(time)));
            if counted + 1 < limit then limit - counted - 1 else 0
  {
    ReenteredStep(hits, Memory(ip, time), ip, Window(time));
    EveryRunIsTallied(limit, hits, ip, Window(time));
  }

  lemma {:induction false} RedisWindowBound(limit: nat, hits: seq<Hit>, ip: string, window: int)
    ensures var admitted := Admitted(limit, hits, InRedis(ip, window));
            admitted <= limit && admitted <= RedisCount(After(hits), ip, window)
  {
    if hits != [] {
      var init, last := hits[..|hits| - 1], hits[|hits| - 1];
      assert hits == init + [last];
      RedisWindowBound(limit, init, ip, window);
      OneMoreHit(limit, init, last, InRedis(ip, window));
    }
  }

  lemma {:induction false} AdmittedSplit(limit: nat, hits: seq<Hit>, whole: Hit -> bool, a: Hit -> bool, b: Hit -> bool)
    requires forall h | h in hits && whole(h) && !h.RedisLost? :: a(h) || b(h)
    ensures Admitted(limit, hits, whole) <= Admitted(limit, hits, a) + Admitted(limit, hits, b)
  {
    if hits != [] {
      AdmittedSplit(limit, hits[..|hits| - 1], whole, a, b);
    }
  }

  /** With arbitrary switching between Redis and memory, at most twice the limit is admitted per
      counted window. */
  lemma SwitchingWindowBound(limit: nat, hits: seq<Hit>, ip: string, window: int)
    requires MemoryClockMonotone(hits, ip)
    ensures Admitted(limit, hits, InWindow(ip, window)) <= 2 * limit
  {
    MemoryWindowBound(limit, hits, ip, window);
    RedisWindowBound(limit, hits, ip, window);
    AdmittedSplit(limit, hits, InWindow(ip, window), InMemory(ip, window), InRedis(ip, window));
  }

  lemma SpanWindows(start: real, time: real)
    requires start <= time < start + 60.0
    ensures Window(time) == Window(start) || Window(time) == Window(start) + 1
  {
  }

  lemma SpanSplit(limit: nat, hits: seq<Hit>, ip: string, start: real)
    ensures Admitted(limit, hits, InSpan(ip, start)) <=
            Admitted(limit, hits, InWindow(ip, Window(start))) + Admitted(limit, hits, InWindow(ip, Window(start) + 1))
  {
    forall h | h in hits && InSpan(ip, start)(h)
      ensures InWindow(ip, Window(start))(h) || InWindow(ip, Window(start) + 1)(h)
    {
      SpanWindows(start, h.time);
    }
    AdmittedSplit(limit, hits, InSpan(ip, start), InWindow(ip, Window(start)), InWindow(ip, Window(start) + 1));
  }

  lemma {:induction false} NoRedisAdmissions(limit: nat, hits: seq<Hit>, ip: string, window: int)
    requires forall h | h in hits :: !h.Redis?
    ensures Admitted(limit, hits, InRedis(ip, window)) == 0
  {
    if hits != [] {
      NoRedisAdmissions(limit, hits[..|hits| - 1], ip, window);
    }
  }

  /** When no reply from Redis decides a request, at most twice the limit is admitted in any sixty
      seconds. */
  lemma MemorySpanBound(limit: nat, hits: seq<Hit>, ip: string, start: real)
    requires MemoryClockMonotone(hits, ip) && forall h | h in hits :: !h.Redis?
    ensures Admitted(limit, hits, InSpan(ip, start)) <= 2 * limit
  {
    var w := Window(start);
    SpanSplit(limit, hits, ip, start);
    MemoryWindowBound(limit, hits, ip, w);
    MemoryWindowBound(limit, hits, ip, w + 1);
    NoRedisAdmissions(limit, hits, ip, w);
    NoRedisAdmissions(limit, hits, ip, w + 1);
    AdmittedSplit(limit, hits, InWindow(ip, w), InMemory(ip, w), InRedis(ip, w));
    AdmittedSplit(limit, hits, InWindow(ip, w + 1), InMemory(ip, w + 1), InRedis(ip, w + 1));
  }

  /** With switching, at most four times the limit in any sixty seconds. */
  lemma SwitchingSpanBound(limit: nat, hits: seq<Hit>, ip: string, start: real)
    requires MemoryClockMonotone(hits, ip)
    ensures Admitted(limit, hits, InSpan(ip, start)) <= 4 * limit
  {
    SpanSplit(limit, hits, ip, start);
    SwitchingWindowBound(limit, hits, ip, Window(start));
    SwitchingWindowBound(limit, hits, ip, Window(start) + 1);
  }

  // ----- the bounds are met

  function Repeat(hit: Hit, n: nat): seq<Hit> {
    if n == 0 then [] else Repeat(hit, n - 1) + [hit]
  }

  lemma BurstOne(counters: Counters, hit: Hit, n: nat)
    requires hit.Memory? && n > 0
    requires var cell := CellOf(counters, hit.ip);
             if n == 1 then cell.window != Window(hit.time) || cell.count == 0 else cell == Cell(n - 1, Window(hit.time))
    ensures CountAfter(counters, hit) == n && CellOf(Apply(counters, hit), hit.ip) == Cell(n, Window(hit.time))
  {
  }

  lemma {:induction false} BurstStep(limit: nat, before: seq<Hit>, hit: Hit, n: nat, which: Hit -> bool)
    requires hit.Memory? && which(hit) && n <= limit
    requires CellOf(After(before), hit.ip).window != Window(hit.time) || CellOf(After(before), hit.ip).count == 0
    ensures var hits := before + Repeat(hit, n);
            && Admitted(limit, hits, which) == Admitted(limit, before, which) + n
            && (n > 0 ==> CellOf(After(hits), hit.ip) == Cell(n, Window(hit.time)))
  {
    if n == 0 {
      assert before + Repeat(hit, 0) == before;
    } else {
      var earlier := before + Repeat(hit, n - 1);
      BurstStep(limit, before, hit, n - 1, which);
      RepeatStep(before, hit, n);
      if n == 1 {
        assert earlier == before;
      }
      BurstOne(After(earlier), hit, n);
      OneMoreHit(limit, earlier, hit, which);
    }
  }

  /** A burst across a window boundary admits twice the limit within two seconds. */
  lemma SpanBoundIsTight(limit: nat, ip: string)
    ensures var hits := Repeat(Memory(ip, 59.0), limit) + Repeat(Memory(ip, 60.0), limit);
            Admitted(limit, hits, InSpan(ip, 59.0)) == 2 * limit
  {
    var first := Repeat(Memory(ip, 59.0), limit);
    BurstStep(limit, [], Memory(ip, 59.0), limit, InSpan(ip, 59.0));
    assert [] + first == first;
    assert Window(59.0) == 0 && Window(60.0) == 1;
    BurstStep(limit, first, Memory(ip, 60.0), limit, InSpan(ip, 59.0));
  }

  lemma RepeatStep(before: seq<Hit>, hit: Hit, n: nat)
    requires n > 0
    ensures before + Repeat(hit, n) == (before + Repeat(hit, n - 1)) + [hit]
  {
  }

  lemma RedisBurstOne(limit: nat, before: seq<Hit>, hit: Hit, which: Hit -> bool)
    requires hit.Redis? && which(hit)
    ensures var count, hits := RedisCount(After(before), hit.ip, Window(hit.time)), before + [hit];
            && Admitted(limit, hits, which) == Admitted(limit, before, which) + (if count + 1 <= limit then 1 else 0)
            && RedisCount(After(hits), hit.ip, Window(hit.time)) == count + 1
            && After(hits).local == After(before).local
  {
    OneMoreHit(limit, before, hit, which);
  }

  /** n more requests, all counted by Redis in a window that is empty so far. */
  ghost predicate Burst(limit: nat, before: seq<Hit>, hits: seq<Hit>, hit: Hit, n: nat, which: Hit -> bool) {
    && Admitted(limit, hits, which) == Admitted(limit, before, which) + n
    && RedisCount(After(hits), hit.ip, Window(hit.time)) == n
    && After(hits).local == After(before).local
  }

  lemma BurstGrows(limit: nat, before: seq<Hit>, hits: seq<Hit>, hit: Hit, n: nat, which: Hit -> bool)
    requires hit.Redis? && which(hit) && n < limit && Burst(limit, before, hits, hit, n, which)
    ensures Burst(limit, before, hits + [hit], hit, n + 1, which)
  {
    RedisBurstOne(limit, hits, hit, which);
  }

  lemma {:induction false} RedisBurst(limit: nat, before: seq<Hit>, hit: Hit, n: nat, which: Hit -> bool)
    requires hit.Redis? && which(hit) && n <= limit
    requires RedisCount(After(before), hit.ip, Window(hit.time)) == 0
    ensures Burst(limit, before, before + Repeat(hit, n), hit, n, which)
  {
    if n == 0 {
      assert before + Repeat(hit, 0) == before;
    } else {
      RedisBurst(limit, before, hit, n - 1, which);
      BurstGrows(limit, before, before + Repeat(hit, n - 1), hit, n - 1, which);
      RepeatStep(before, hit, n);
    }
  }

  lemma {:induction false} OtherWindowUntouched(hits: seq<Hit>, ip: string, window: int)
    requires forall h | h in hits :: h.Memory? || Window(h.time) != window
    ensures RedisCount(After(hits), ip, window) == 0
  {
    if hits != [] {
      OtherWindowUntouched(hits[..|hits| - 1], ip, window);
    }
  }

  /** One window's requests, first through Redis and then, Redis gone, through memory. */
  function Switched(ip: string, time: real, limit: nat): seq<Hit> {
    Repeat(Redis(ip, time), limit) + Repeat(Memory(ip, time), limit)
  }

  lemma {:induction false} RepeatIsOne(hit: Hit, n: nat)
    ensures forall h | h in Repeat(hit, n) :: h == hit
  {
    if n > 0 {
      RepeatIsOne(hit, n - 1);
    }
  }

  lemma SameCell(a: Counters, b: Counters, ip: string)
    requires a.local == b.local
    ensures CellOf(a, ip) == CellOf(b, ip)
  {
  }

  lemma Sequenced(before: seq<Hit>, a: seq<Hit>, b: seq<Hit>)
    ensures (before + a) + b == before + (a + b)
  {
  }

  lemma SwitchedAdmits(limit: nat, before: seq<Hit>, ip: string, time: real, which: Hit -> bool)
    requires which(Redis(ip, time)) && which(Memory(ip, time))
    requires RedisCount(After(before), ip, Window(time)) == 0
    requires CellOf(After(before), ip).window != Window(time) || CellOf(After(before), ip).count == 0
    ensures Admitted(limit, before + Switched(ip, time, limit), which) == Admitted(limit, before, which) + 2 * limit
    ensures limit > 0 ==> CellOf(After(before + Switched(ip, time, limit)), ip).window == Window(time)
  {
    var middle := before + Repeat(Redis(ip, time), limit);
    RedisBurst(limit, before, Redis(ip, time), limit, which);
    SameCell(After(middle), After(before), ip);
    BurstStep(limit, middle, Memory(ip, time), limit, which);
    Sequenced(before, Repeat(Redis(ip, time), limit), Repeat(Memory(ip, time), limit));
  }

  /** Losing Redis in mid-window admits twice the limit in that window. */
  lemma SwitchingWindowBoundIsTight(limit: nat, ip: string)
    ensures Admitted(limit, Switched(ip, 59.0, limit), InWindow(ip, 0)) == 2 * limit
  {
    assert Window(59.0) == 0;
    SwitchedAdmits(limit, [], ip, 59.0, InWindow(ip, 0));
    assert [] + Switched(ip, 59.0, limit) == Switched(ip, 59.0, limit);
  }

  lemma FirstSwitch(limit: nat, ip: string)
    ensures var first := Switched(ip, 59.0, limit);
            && Admitted(limit, first, InSpan(ip, 59.0)) == 2 * limit
            && RedisCount(After(first), ip, 1) == 0 && CellOf(After(first), ip).window == 0
  {
    var first := Switched(ip, 59.0, limit);
    assert Window(59.0) == 0;
    SwitchedAdmits(limit, [], ip, 59.0, InSpan(ip, 59.0));
    assert [] + first == first;
    RepeatIsOne(Redis(ip, 59.0), limit);
    RepeatIsOne(Memory(ip, 59.0), limit);
    OtherWindowUntouched(first, ip, 1);
    if limit == 0 {
      assert first == [];
    }
  }

  /** Losing it in two neighbouring windows admits four times the limit within two seconds. */
  lemma SwitchingSpanBoundIsTight(limit: nat, ip: string)
    ensures Admitted(limit, Switched(ip, 59.0, limit) + Switched(ip, 60.0, limit), InSpan(ip, 59.0)) == 4 * limit
  {
    assert Window(60.0) == 1;
    FirstSwitch(limit, ip);
    SwitchedAdmits(limit, Switched(ip, 59.0, limit), ip, 60.0, InSpan(ip, 59.0));
  }

  /** A clock that steps back restarts the count: with a limit of one, three requests alternating
      between two windows put two into the same window. */
  lemma ClockStepBackBreaksBound(ip: string)
    ensures Admitted(1, [Memory(ip, 60.0), Memory(ip, 59.0), Memory(ip, 60.0)], InMemory(ip, 1)) == 2
  {
    var a, b := Memory(ip, 60.0), Memory(ip, 59.0);
    assert Window(60.0) == 1 && Window(59.0) == 0;
    assert [a, b, a][..2] == [a, b] && [a, b][..1] == [a] && [a][..0] == [];
    assert After([a]) == Apply(START, a);
    assert After([a, b]) == Apply(After([a]), b);
    assert Admitted(1, [a], InMemory(ip, 1)) == 1;
    assert Admitted(1, [a, b], InMemory(ip, 1)) == 1;
  }
}
