/**
 How many threads a pool can count. The manager counts a worker even if its creation failed, and
 if_thread_alive compares with -1 what pthread_kill returns, which never is -1, so it takes an exited thread
 for alive and no entry of tids is used twice. Here is the exact maximum of the counter, pool by pool.
 */
module ThreadPoolOvercount {
  import opened Sequences
  import opened ThreadPool

  // ---------------------------------------------------------------- the maximum

  /** By how much whole rounds, which add `min` each, overshoot max - 1. */
  function Overshoot(max: nat, min: nat): (r: nat)
    requires 1 <= min < max
    ensures r < min && (max - 1 + r) % min == 0
  {
    OvershootIs(max - 1, min);
    (min - (max - 1) % min) % min
  }

  lemma OvershootIs(n: nat, m: nat)
    requires m > 0
    ensures var r := (m - n % m) % m;
            r < m && (n + r) % m == 0
  {
    var r := (m - n % m) % m;
    if n % m == 0 {
      assert m % m == 0;
    } else {
      assert r == m - n % m;
      assert n + r == m * (n / m + 1);
      MultipleMod(n / m + 1, m);
    }
  }

  lemma MulBounds(m: nat, d: int)
    requires m > 0
    ensures (d >= 1 ==> m * d >= m) && (d <= -1 ==> m * d + m <= 0)
  {}

  lemma MultipleMod(k: int, m: nat)
    requires m > 0
    ensures (m * k) % m == 0
  {
    var d := k - (m * k) / m;
    assert (m * k) % m == m * k - m * ((m * k) / m) == m * d;
    MulBounds(m, d);
  }

  lemma MultiplesApart(x: int, y: int, m: nat)
    requires m > 0 && x % m == 0 && y % m == 0 && x > y - m
    ensures x >= y
  {
    assert x - y == m * (x / m) - m * (y / m) == m * (x / m - y / m);
    MulBounds(m, x / m - y / m);
  }

  lemma NextMultiple(x: int, m: nat)
    requires m > 0 && x % m == 0
    ensures (x + m) % m == 0 && (x - m) % m == 0
  {
    assert x == m * (x / m);
    MultipleMod(x / m + 1, m);
    MultipleMod(x / m - 1, m);
  }

  /** The last round can start from max - 1: by whole rounds, or after some failed and some retired. */
  predicate StartsFromBelowMax(max: nat, min: nat, queueMax: nat)
    requires 1 <= min < max
  {
    var r := Overshoot(max, min);
    r == 0 || queueMax > r || 5 * r <= max - 1
  }

  /** What the counter of a pool can get up to. */
  function Peak(max: nat, min: nat, queueMax: nat): int {
    if !(1 <= min < max && queueMax > 0) then min
    else if StartsFromBelowMax(max, min, queueMax) then max + min - 1
    else max - 1 + Overshoot(max, min)
  }

  /** Runs of the code as it is: no exited thread is ever taken for dead. */
  predicate NoneSeenDead(events: seq<Event>) {
    forall e :: e in events && e.Managing? ==> !e.seenDead
  }

  // ---------------------------------------------------------------- it is an upper bound

  /** Without room in the queue, or without room to grow, the counter never moves. */
  ghost predicate Still(p: Pool) {
    && (p.queueMax == 0 || p.min == 0 || p.min == p.max)
    && p.alive == p.min && CountInv(p) && RingInv(p)
    && (p.manager.Looking? ==> p.manager.alive == p.min && (p.queueMax == 0 ==> p.manager.busy == p.manager.cur == 0))
    && (p.manager.Adding? ==> p.queueMax > 0 && p.min == 0)
    && (p.queueMax == 0 ==> p.busy == 0 && forall i :: 0 <= i < |p.slots| ==> !p.slots[i].Running?)
  }

  lemma ApplyStaysStill(p: Pool, e: Event)
    requires Still(p)
    ensures Still(Apply(p, e))
  {
    ApplyKeepsCounts(p, e);
    ApplyKeepsRing(p, e);
  }

  lemma {:induction false} StaysStill(p: Pool, events: seq<Event>)
    requires Created(p) && (p.queueMax == 0 || p.min == 0 || p.min == p.max)
    ensures Still(Run(p, events)) && Run(p, events).min == p.min
    decreases |events|
  {
    CreatedInv(p);
    if events != [] {
      var q := Run(p, events[..|events| - 1]);
      StaysStill(p, events[..|events| - 1]);
      ApplyStaysStill(q, events[|events| - 1]);
    }
  }

  /** Entries of tids that have been used. */
  function Used(slots: seq<Slot>): nat {
    Count(slots, (s: Slot) => !s.Vacant?)
  }

  lemma {:induction false} WorkersAreUsed(slots: seq<Slot>)
    ensures Workers(slots) <= Used(slots) <= |slots|
  {
    if slots != [] {
      WorkersAreUsed(slots[1..]);
    }
  }

  lemma {:induction false} SomeVacant(slots: seq<Slot>)
    ensures Used(slots) < |slots| <==> Vacant in slots
  {
    if slots != [] {
      SomeVacant(slots[1..]);
      WorkersAreUsed(slots[1..]);
      assert slots == [slots[0]] + slots[1..];
    }
  }

  /**
   While an entry is vacant, every creation of a round takes place, so the creations tried so far come in
   whole rounds; and a round that is under way has not started too far up.
   */
  ghost predicate RoundsInv(p: Pool) {
    1 <= p.min < p.max && p.queueMax > 0 &&
    var tried := Used(p.slots) + p.failed;
    var vacant := Used(p.slots) < p.max;
    match p.manager
    case Looking(alive, busy, cur) =>
      vacant ==> tried % p.min == 0 && alive <= tried && busy <= alive - p.failed && cur <= p.queueMax
    case Adding(alive, _, j, i) =>
      && j <= p.min && (forall k :: 0 <= k < i && k < |p.slots| ==> !p.slots[k].Vacant?)
      && (vacant ==> (tried - j) % p.min == 0 && alive + p.min <= Peak(p.max, p.min, p.queueMax))
    case _ => vacant ==> tried % p.min == 0
  }

  /** A round that starts while an entry is vacant stays within the maximum. */
  lemma RoundStartsLow(max: nat, min: nat, queueMax: nat, used: nat, failed: nat, alive: int, busy: int, cur: int)
    requires 1 <= min < max && queueMax > 0 && used < max && (used + failed) % min == 0
    requires alive <= used + failed && busy <= alive - failed && cur <= queueMax && WantsMore(max, alive, busy, cur)
    ensures alive + min <= Peak(max, min, queueMax)
  {
    var r := Overshoot(max, min);
    if !StartsFromBelowMax(max, min, queueMax) {
      var next := max - 1 + r;
      if used + failed > next - min {
        MultiplesApart(used + failed, next, min);
        assert false;
      }
    }
  }

  lemma ApplyKeepsUsed(p: Pool, e: Event)
    requires !e.Managing?
    ensures Used(Apply(p, e).slots) == Used(p.slots) && |Apply(p, e).slots| == |p.slots|
    ensures forall k :: 0 <= k < |p.slots| && !p.slots[k].Vacant? ==> !Apply(p, e).slots[k].Vacant?
  {
    match e
    case Taking(w) =>
      if w < |p.slots| {
        CountUpdate(p.slots, w, Leaving, (s: Slot) => !s.Vacant?);
        CountUpdate(p.slots, w, Running(|p.taken|), (s: Slot) => !s.Vacant?);
      }
    case Finishing(w) =>
      if w < |p.slots| {
        CountUpdate(p.slots, w, Idle, (s: Slot) => !s.Vacant?);
      }
    case Exiting(w) =>
      if w < |p.slots| {
        CountUpdate(p.slots, w, Gone, (s: Slot) => !s.Vacant?);
      }
    case _ =>
  }

  lemma OthersKeepRounds(p: Pool, e: Event)
    requires RoundsInv(p) && PoolInv(p) && !e.Managing?
    ensures RoundsInv(Apply(p, e))
  {
    ApplyKeepsUsed(p, e);
  }

  lemma AddingKeepsRounds(p: Pool, created: bool)
    requires RoundsInv(p) && PoolInv(p) && p.manager.Adding?
    ensures RoundsInv(Manage(p, false, created))
  {
    SomeVacant(p.slots);
    WorkersAreUsed(p.slots);
    var tried := Used(p.slots) + p.failed;
    if p.manager.j == p.min {
      if Used(p.slots) < p.max {
        NextMultiple(tried - p.min, p.min);
      }
    } else if p.manager.i < |p.slots| {
      CountUpdate(p.slots, p.manager.i, Idle, (s: Slot) => !s.Vacant?);
    }
  }

  lemma ManagingKeepsRounds(p: Pool, created: bool)
    requires RoundsInv(p) && PoolInv(p)
    ensures RoundsInv(Manage(p, false, created))
  {
    match p.manager
    case Asleep =>
      WorkersAreUsed(p.slots);
      BusyAtMostWorkers(p.slots);
    case Looking(alive, busy, cur) =>
      if WantsMore(p.max, alive, busy, cur) && Used(p.slots) < p.max {
        RoundStartsLow(p.max, p.min, p.queueMax, Used(p.slots), p.failed, alive, busy, cur);
      }
    case Adding(_, _, _, _) => AddingKeepsRounds(p, created);
    case Shrinking(_, _) =>
  }

  /** The counter moves up only while an entry is vacant. */
  lemma ApplyKeepsPeak(p: Pool, e: Event)
    requires RoundsInv(p) && PoolInv(p) && RoundInv(p) && (e.Managing? ==> !e.seenDead)
    requires p.alive <= Peak(p.max, p.min, p.queueMax)
    ensures RoundsInv(Apply(p, e)) && Apply(p, e).alive <= Peak(p.max, p.min, p.queueMax)
  {
    SomeVacant(p.slots);
    if e.Managing? {
      ManagingKeepsRounds(p, e.created);
    } else {
      OthersKeepRounds(p, e);
    }
  }

  lemma NewKeepsPeak(p: Pool)
    requires Created(p) && 1 <= p.min < p.max && p.queueMax > 0
    ensures RoundsInv(p) && p.alive <= Peak(p.max, p.min, p.queueMax)
  {
    CountPrefix(p.slots, p.min, (s: Slot) => !s.Vacant?);
    MultipleMod(1, p.min);
    if !StartsFromBelowMax(p.max, p.min, p.queueMax) {
      assert p.max - 1 + Overshoot(p.max, p.min) >= p.min;
    }
  }

  lemma {:induction false} RunKeepsPeak(p: Pool, events: seq<Event>)
    requires Created(p) && 1 <= p.min < p.max && p.queueMax > 0 && NoneSeenDead(events)
    ensures var q := Run(p, events);
            && PoolInv(q) && RoundInv(q) && RoundsInv(q) && q.max == p.max && q.min == p.min && q.queueMax == p.queueMax
            && q.alive <= Peak(p.max, p.min, p.queueMax)
    decreases |events|
  {
    RunKeepsInv(p, events);
    RunKeepsRound(p, events);
    if events == [] {
      NewKeepsPeak(p);
    } else {
      var before, e := events[..|events| - 1], events[|events| - 1];
      assert e in events;
      RunKeepsPeak(p, before);
      ApplyKeepsPeak(Run(p, before), e);
    }
  }

  lemma AtMostPeak(p: Pool, events: seq<Event>)
    requires Created(p) && NoneSeenDead(events)
    ensures Run(p, events).alive <= Peak(p.max, p.min, p.queueMax)
  {
    if 1 <= p.min < p.max && p.queueMax > 0 {
      RunKeepsPeak(p, events);
    } else {
      StaysStill(p, events);
    }
  }

  // ---------------------------------------------------------------- it is attained

  ghost predicate Reachable(p: Pool, q: Pool) {
    exists events :: NoneSeenDead(events) && Run(p, events) == q
  }

  lemma Step(p: Pool, q: Pool, e: Event)
    requires Reachable(p, q) && (e.Managing? ==> !e.seenDead)
    ensures Reachable(p, Apply(q, e))
  {
    var events :| NoneSeenDead(events) && Run(p, events) == q;
    assert (events + [e])[..|events|] == events;
    assert Run(p, events + [e]) == Apply(q, e);
  }

  lemma Sound(p: Pool, q: Pool)
    requires Created(p) && Reachable(p, q)
    ensures PoolInv(q) && q.max == p.max && q.min == p.min && q.queueMax == p.queueMax
  {
    var events :| NoneSeenDead(events) && Run(p, events) == q;
    RunKeepsInv(p, events);
  }

  /** Busy workers, then idle ones, then retired ones, then entries never used; the manager is where `m` says. */
  ghost predicate Stage(p: Pool, q: Pool, busy: nat, workers: nat, used: nat, failed: nat, m: Manager) {
    && Reachable(p, q) && q.max == p.max && q.min == p.min && q.queueMax == p.queueMax
    && busy <= workers <= used <= q.max == |q.slots| && q.manager == m
    && q.failed == failed && q.alive == workers + failed
    && (forall i :: 0 <= i < busy ==> q.slots[i].Running?)
    && (forall i :: busy <= i < workers ==> q.slots[i] == Idle)
    && (forall i :: workers <= i < used ==> q.slots[i] == Gone)
    && (forall i :: used <= i < q.max ==> q.slots[i] == Vacant)
  }

  /** A task for the first idle worker. */
  lemma Give(p: Pool, q: Pool, busy: nat, workers: nat, used: nat, failed: nat, m: Manager) returns (r: Pool)
    requires Created(p) && p.queueMax > 0 && Stage(p, q, busy, workers, used, failed, m) && busy < workers && q.cur == 0 && q.wait == 0
    ensures Stage(p, r, busy + 1, workers, used, failed, m) && r.cur == 0 && r.wait == 0
  {
    Sound(p, q);
    Step(p, q, Producing(T));
    r := Produce(q, T);
    Sound(p, r);
    Step(p, r, Taking(busy));
    r := Turn(r, busy);
  }

  lemma GiveAll(p: Pool, q: Pool, busy: nat, n: nat, workers: nat, used: nat, failed: nat, m: Manager) returns (r: Pool)
    requires Created(p) && p.queueMax > 0 && Stage(p, q, busy, workers, used, failed, m) && busy <= n <= workers && q.cur == 0 && q.wait == 0
    ensures Stage(p, r, n, workers, used, failed, m) && r.cur == 0 && r.wait == 0
  {
    r := q;
    for k := busy to n
      invariant Stage(p, r, k, workers, used, failed, m) && r.cur == 0 && r.wait == 0
    {
      r := Give(p, r, k, workers, used, failed, m);
    }
  }

  lemma FinishLast(p: Pool, q: Pool, busy: nat, workers: nat, used: nat, failed: nat, m: Manager) returns (r: Pool)
    requires Stage(p, q, busy, workers, used, failed, m) && busy > 0
    ensures Stage(p, r, busy - 1, workers, used, failed, m) && r.cur == q.cur && r.wait == q.wait
  {
    Step(p, q, Finishing(busy - 1));
    r := Finish(q, busy - 1);
  }

  /** All workers return from their tasks. */
  lemma FinishAll(p: Pool, q: Pool, busy: nat, workers: nat, used: nat, failed: nat, m: Manager) returns (r: Pool)
    requires Stage(p, q, busy, workers, used, failed, m)
    ensures Stage(p, r, 0, workers, used, failed, m) && r.cur == q.cur && r.wait == q.wait
  {
    r := q;
    var k := busy;
    while k > 0
      invariant 0 <= k <= busy && Stage(p, r, k, workers, used, failed, m) && r.cur == q.cur && r.wait == q.wait
    {
      r := FinishLast(p, r, k, workers, used, failed, m);
      k := k - 1;
    }
  }

  /** An idle worker retires: it has been signalled, and there is a task that it leaves to the others. */
  lemma Retire(p: Pool, q: Pool, busy: nat, workers: nat, used: nat, failed: nat, m: Manager) returns (r: Pool)
    requires Stage(p, q, busy, workers, used, failed, m) && busy < workers && q.cur > 0 && q.wait > 0 && q.alive > q.min
    ensures Stage(p, r, busy, workers - 1, used, failed, m) && r.cur == q.cur && r.wait == q.wait - 1
  {
    Step(p, q, Taking(workers - 1));
    r := Turn(q, workers - 1);
    Step(p, r, Exiting(workers - 1));
    r := Exit(r, workers - 1);
  }

  lemma RetireAll(p: Pool, q: Pool, busy: nat, workers: nat, used: nat, failed: nat, n: nat, m: Manager) returns (r: Pool)
    requires Stage(p, q, busy, workers, used, failed, m) && q.cur > 0 && n <= q.wait
    requires busy + n <= workers && q.alive - n >= q.min
    ensures Stage(p, r, busy, workers - n, used, failed, m) && r.cur == q.cur && r.wait == q.wait - n
  {
    r := q;
    for k := 0 to n
      invariant Stage(p, r, busy, workers - k, used, failed, m) && r.cur == q.cur && r.wait == q.wait - k
    {
      r := Retire(p, r, busy, workers - k, used, failed, m);
    }
  }

  /** The manager's search passes the entries that are used. */
  lemma Search(p: Pool, q: Pool, busy: nat, workers: nat, used: nat, failed: nat, m: Manager) returns (r: Pool)
    requires m.Adding? && m.i == 0 && m.j < p.min && Stage(p, q, busy, workers, used, failed, m)
    ensures Stage(p, r, busy, workers, used, failed, m.(i := used)) && r.cur == q.cur && r.wait == q.wait
  {
    r := q;
    for k := 0 to used
      invariant Stage(p, r, busy, workers, used, failed, m.(i := k)) && r.cur == q.cur && r.wait == q.wait
    {
      assert !r.slots[k].Vacant?;
      Step(p, r, Managing(false, true));
      r := Manage(r, false, true);
    }
  }

  /** Some creations of a round, all of which succeed. */
  lemma AddWorkers(p: Pool, q: Pool, busy: nat, workers: nat, m: Manager, n: nat) returns (r: Pool)
    requires m.Adding? && m.i == 0 && m.j + n <= p.min && Stage(p, q, busy, workers, workers, 0, m) && workers + n <= p.max
    ensures Stage(p, r, busy, workers + n, workers + n, 0, m.(j := m.j + n)) && r.cur == q.cur && r.wait == q.wait
  {
    r := q;
    for k := 0 to n
      invariant Stage(p, r, busy, workers + k, workers + k, 0, m.(j := m.j + k)) && r.cur == q.cur && r.wait == q.wait
    {
      r := Search(p, r, busy, workers + k, workers + k, 0, m.(j := m.j + k));
      Step(p, r, Managing(false, true));
      r := Manage(r, false, true);
    }
  }

  /** Some creations of a round, all of which fail. */
  lemma AddNone(p: Pool, q: Pool, busy: nat, workers: nat, used: nat, failed: nat, m: Manager, n: nat) returns (r: Pool)
    requires m.Adding? && m.i == 0 && m.j + n <= p.min && Stage(p, q, busy, workers, used, failed, m) && used < p.max
    ensures Stage(p, r, busy, workers, used, failed + n, m.(j := m.j + n)) && r.cur == q.cur && r.wait == q.wait
  {
    r := q;
    for k := 0 to n
      invariant Stage(p, r, busy, workers, used, failed + k, m.(j := m.j + k)) && r.cur == q.cur && r.wait == q.wait
    {
      r := Search(p, r, busy, workers, used, failed + k, m.(j := m.j + k));
      Step(p, r, Managing(false, false));
      r := Manage(r, false, false);
    }
  }

  /** The manager takes its snapshot and looks at it. */
  lemma Look(p: Pool, q: Pool, busy: nat, workers: nat, used: nat, failed: nat) returns (r: Pool)
    requires Created(p) && Stage(p, q, busy, workers, used, failed, Asleep)
    ensures Stage(p, r, busy, workers, used, failed,
                  if WantsMore(p.max, workers + failed, busy, q.cur) then Adding(workers + failed, busy, 0, 0) else Shrinking(workers + failed, busy))
    ensures r.cur == q.cur && r.wait == q.wait
  {
    Sound(p, q);
    BusyPrefix(q.slots, busy);
    Step(p, q, Managing(false, true));
    r := Manage(q, false, true);
    Step(p, r, Managing(false, true));
    r := Manage(r, false, true);
  }

  /** The end of a turn of the manager. */
  lemma Sleep(p: Pool, q: Pool, busy: nat, workers: nat, used: nat, failed: nat, m: Manager) returns (r: Pool)
    requires m.Shrinking? && Stage(p, q, busy, workers, used, failed, m)
    ensures Stage(p, r, busy, workers, used, failed, Asleep) && r.cur == q.cur
    ensures r.wait == if m.busy * 2 < m.alive - m.busy && m.alive > p.min then DEF_COUNT else q.wait
  {
    Step(p, q, Managing(false, true));
    r := Manage(q, false, true);
  }

  /** A round from n busy workers, of which `n` creations succeed and the others fail. */
  lemma Round(p: Pool, q: Pool, workers: nat, n: nat) returns (r: Pool)
    requires Created(p) && Stage(p, q, workers, workers, workers, 0, Asleep) && q.cur == 0 && q.wait == 0
    requires 0 < workers && n <= p.min && workers + n <= p.max && (n < p.min ==> workers + n < p.max) && workers < p.max
    ensures Stage(p, r, workers, workers + n, workers + n, p.min - n, Asleep) && r.cur == 0 && r.wait == 0
  {
    r := Look(p, q, workers, workers, workers, 0);
    r := AddWorkers(p, r, workers, workers, Adding(workers, workers, 0, 0), n);
    if n < p.min {
      r := AddNone(p, r, workers, workers + n, workers + n, 0, Adding(workers, workers, n, 0), p.min - n);
    }
    Step(p, r, Managing(false, true));
    r := Manage(r, false, true);
    r := Sleep(p, r, workers, workers + n, workers + n, p.min - n, Shrinking(workers, workers));
  }

  lemma GrowMore(p: Pool, q: Pool, k: nat, n: nat) returns (r: Pool)
    requires Created(p) && 1 <= p.min < p.max && p.queueMax > 0 && k % p.min == 0 && n % p.min == 0 && 0 < k < n < p.max
    requires Stage(p, q, k, k, k, 0, Asleep) && q.cur == 0 && q.wait == 0
    ensures k + p.min <= n && (k + p.min) % p.min == 0
    ensures Stage(p, r, k + p.min, k + p.min, k + p.min, 0, Asleep) && r.cur == 0 && r.wait == 0
  {
    NextMultiple(k, p.min);
    MultiplesApart(n, k + p.min, p.min);
    r := Round(p, q, k, p.min);
    r := GiveAll(p, r, k, k + p.min, k + p.min, k + p.min, 0, Asleep);
  }

  /** From the new pool to n busy workers, in whole rounds. */
  lemma GrowTo(p: Pool, n: nat) returns (q: Pool)
    requires Created(p) && 1 <= p.min <= n < p.max && p.queueMax > 0 && n % p.min == 0
    ensures Stage(p, q, n, n, n, 0, Asleep) && q.cur == 0 && q.wait == 0
  {
    assert Run(p, []) == p && NoneSeenDead([]);
    q := GiveAll(p, p, 0, p.min, p.min, p.min, 0, Asleep);
    var k := p.min;
    MultipleMod(1, p.min);
    while k < n
      invariant p.min <= k <= n && k % p.min == 0
      invariant Stage(p, q, k, k, k, 0, Asleep) && q.cur == 0 && q.wait == 0
    {
      q := GrowMore(p, q, k, n);
      k := k + p.min;
    }
  }

  /** The last round: all its creations fail. */
  lemma LastRound(p: Pool, q: Pool, busy: nat, workers: nat, used: nat, failed: nat) returns (r: Pool)
    requires Created(p) && Stage(p, q, busy, workers, used, failed, Asleep) && used < p.max
    requires WantsMore(p.max, workers + failed, busy, q.cur)
    ensures Reachable(p, r) && r.alive == workers + failed + p.min
  {
    r := Look(p, q, busy, workers, used, failed);
    r := AddNone(p, r, busy, workers, used, failed, Adding(workers + failed, busy, 0, 0), p.min);
  }

  /** The largest whole number of rounds below the maximum, and then a round that fails. */
  lemma PeakInRounds(p: Pool) returns (q: Pool)
    requires Created(p) && 1 <= p.min < p.max && p.queueMax > 0
    ensures var r := Overshoot(p.max, p.min);
            Reachable(p, q) && q.alive == if r == 0 then p.max + p.min - 1 else p.max - 1 + r
  {
    var r := Overshoot(p.max, p.min);
    var n := if r == 0 then p.max - 1 else p.max - 1 + r - p.min;
    NextMultiple(p.max - 1 + r, p.min);
    if n < p.min {
      MultipleMod(1, p.min);
      MultiplesApart(n, p.min, p.min);
    }
    q := GrowTo(p, n);
    q := LastRound(p, q, n, n, n, 0);
  }

  /** All idle, and the manager about to shrink the pool. */
  lemma AboutToShrink(p: Pool, q: Pool, workers: nat, used: nat, failed: nat) returns (r: Pool)
    requires Created(p) && Stage(p, q, 0, workers, used, failed, Asleep) && workers + failed >= p.max
    ensures Stage(p, r, 0, workers, used, failed, Shrinking(workers + failed, 0)) && r.cur == q.cur && r.wait == q.wait
  {
    r := Look(p, q, 0, workers, used, failed);
  }

  /** Ten workers at a time retire, until at most ten have still to. */
  lemma ManyRetire(p: Pool, q: Pool, workers: nat, used: nat, failed: nat, n: nat) returns (r: Pool, left: nat)
    requires Created(p) && p.queueMax > 0 && p.min < p.max && Stage(p, q, 0, workers, used, failed, Asleep) && q.cur == 0 && q.wait == 0
    requires 0 < n < workers && workers + failed == p.max - 1 + n
    ensures 0 < left <= DEF_COUNT && left <= n
    ensures Stage(p, r, 0, workers - n + left, used, failed, Asleep) && r.cur == 0 && r.wait == 0
  {
    r, left := q, n;
    while left > DEF_COUNT
      invariant 0 < left <= n
      invariant Stage(p, r, 0, workers - n + left, used, failed, Asleep) && r.cur == 0 && r.wait == 0
    {
      var w := workers - n + left;
      r := AboutToShrink(p, r, w, used, failed);
      r := Sleep(p, r, 0, w, used, failed, Shrinking(w + failed, 0));
      Sound(p, r);
      Step(p, r, Producing(T));
      r := Produce(r, T);
      r := RetireAll(p, r, 0, w, used, failed, DEF_COUNT, Asleep);
      left := left - DEF_COUNT;
      r := TakeLeftTask(p, r, w - DEF_COUNT, used, failed);
    }
  }

  /** The task that the retiring workers left. */
  lemma TakeLeftTask(p: Pool, q: Pool, workers: nat, used: nat, failed: nat) returns (r: Pool)
    requires Created(p) && p.queueMax > 0 && Stage(p, q, 0, workers, used, failed, Asleep) && q.cur == 1 && q.wait == 0 && workers > 0
    ensures Stage(p, r, 0, workers, used, failed, Asleep) && r.cur == 0 && r.wait == 0
  {
    Sound(p, q);
    Step(p, q, Taking(0));
    r := Turn(q, 0);
    Step(p, r, Finishing(0));
    r := Finish(r, 0);
  }

  lemma FillQueue(p: Pool, q: Pool, busy: nat, workers: nat, used: nat, failed: nat) returns (r: Pool)
    requires Created(p) && p.queueMax > 0 && Stage(p, q, busy, workers, used, failed, Asleep)
    ensures Stage(p, r, busy, workers, used, failed, Asleep) && r.cur == p.queueMax
  {
    r := q;
    Sound(p, r);
    while r.cur < p.queueMax
      invariant Stage(p, r, busy, workers, used, failed, Asleep) && r.cur <= p.queueMax
    {
      Sound(p, r);
      Step(p, r, Producing(T));
      r := Produce(r, T);
    }
  }

  /** The last ones retire while all the others are busy, and the queue is full. */
  lemma LastRetire(p: Pool, q: Pool, workers: nat, used: nat, failed: nat, left: nat) returns (r: Pool)
    requires Created(p) && p.queueMax > 0 && p.min < p.max && Stage(p, q, 0, workers, used, failed, Asleep) && q.cur == 0 && q.wait == 0
    requires 0 < left <= DEF_COUNT && left <= workers && workers + failed == p.max - 1 + left
    ensures Stage(p, r, workers - left, workers - left, used, failed, Asleep) && r.cur == p.queueMax
  {
    r := AboutToShrink(p, q, workers, used, failed);
    var m := Shrinking(workers + failed, 0);
    r := GiveAll(p, r, 0, workers - left, workers, used, failed, m);
    r := Sleep(p, r, workers - left, workers, used, failed, m);
    Sound(p, r);
    Step(p, r, Producing(T));
    r := Produce(r, T);
    r := RetireAll(p, r, workers - left, workers, used, failed, left, Asleep);
    r := FillQueue(p, r, workers - left, workers - left, used, failed);
  }

  /** As many failed creations as keep one entry vacant, as many retired workers, and then a round that fails. */
  lemma PeakByRetiring(p: Pool) returns (q: Pool)
    requires Created(p) && 1 <= p.min < p.max && p.queueMax > 0
    requires Overshoot(p.max, p.min) > 0 && StartsFromBelowMax(p.max, p.min, p.queueMax)
    ensures Reachable(p, q) && q.alive == p.max + p.min - 1
  {
    var r := Overshoot(p.max, p.min);
    var n, w := p.max - 1 + r - p.min, p.max - 1;
    NextMultiple(p.max - 1 + r, p.min);
    if n < p.min {
      MultipleMod(1, p.min);
      MultiplesApart(n, p.min, p.min);
    }
    q := GrowTo(p, n);
    q := Round(p, q, n, p.min - r);
    q := FinishAll(p, q, n, w, w, r, Asleep);
    var left: nat;
    q, left := ManyRetire(p, q, w, w, r, r);
    q := LastRetire(p, q, w - r + left, w, r, left);
    q := LastRound(p, q, w - r, w - r, w, r);
  }

  lemma PeakReached(p: Pool) returns (events: seq<Event>)
    requires Created(p)
    ensures NoneSeenDead(events) && Run(p, events).alive == Peak(p.max, p.min, p.queueMax)
  {
    if !(1 <= p.min < p.max && p.queueMax > 0) {
      events := [];
    } else {
      var q: Pool;
      if Overshoot(p.max, p.min) > 0 && StartsFromBelowMax(p.max, p.min, p.queueMax) {
        q := PeakByRetiring(p);
      } else {
        q := PeakInRounds(p);
      }
      events :| NoneSeenDead(events) && Run(p, events) == q;
    }
  }

  // ---------------------------------------------------------------- exactly which pools

  /** `Peak` is the exact maximum of the counter over all runs of a pool. */
  lemma PeakIsExact(p: Pool)
    requires Created(p)
    ensures forall events :: NoneSeenDead(events) ==> Run(p, events).alive <= Peak(p.max, p.min, p.queueMax)
    ensures exists events :: NoneSeenDead(events) && Run(p, events).alive == Peak(p.max, p.min, p.queueMax)
  {
    forall events | NoneSeenDead(events)
      ensures Run(p, events).alive <= Peak(p.max, p.min, p.queueMax)
    {
      AtMostPeak(p, events);
    }
    var events := PeakReached(p);
  }

  lemma PeakAboveMaxIff(max: nat, min: nat, queueMax: nat)
    requires min <= max
    ensures Peak(max, min, queueMax) > max
       <==> 2 <= min < max && queueMax > 0 && !(max == 4 && min == 2 && queueMax == 1)
  {}

  ghost predicate Overcounts(p: Pool) {
    exists events :: NoneSeenDead(events) && Run(p, events).alive > p.max
  }

  /**
   Exactly the pools with at least two initial threads, more than that many at most, and room in the queue
   can count more threads than the maximum; all but one of them.
   */
  lemma OvercountIff(p: Pool)
    requires Created(p)
    ensures Overcounts(p)
       <==> 2 <= p.min < p.max && p.queueMax > 0 && !(p.max == 4 && p.min == 2 && p.queueMax == 1)
  {
    PeakIsExact(p);
    PeakAboveMaxIff(p.max, p.min, p.queueMax);
    if Peak(p.max, p.min, p.queueMax) > p.max {
      var events := PeakReached(p);
      assert Run(p, events).alive > p.max;
    }
  }
}
