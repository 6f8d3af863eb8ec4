/**
 The thread pool: a ring buffer filled by Producer_add and emptied by the workers (Custom), and a
 manager that grows and shrinks the set of workers from a snapshot that may be stale.
 Every stretch of code between taking and releasing the lock is one step; runs are arbitrary
 interleavings of such steps.
 */
module ThreadPool {
  import opened Sequences

  const DEF_COUNT := 10

  datatype Task = Task(routine: int, arg: int)

  /** What the system knows of the thread whose id is in one entry of tids. */
  datatype Slot =
    | Vacant             // the entry is 0
    | Idle               // counted alive; before or inside the wait for a task
    | Running(k: nat)    // counted alive and busy with the k-th task ever taken
    | Leaving            // no longer counted, not yet past pthread_exit
    | Gone               // exited

  /** Where the manager is in its loop, with the snapshot it works from. */
  datatype Manager =
    | Asleep
    | Looking(alive: int, busy: int, cur: int)
    | Adding(alive: int, busy: int, j: nat, i: nat)
    | Shrinking(alive: int, busy: int)

  /** The pool, with its history: tasks added, tasks taken, which of these finished, failed creations. */
  datatype Pool = Pool(
    max: nat, min: nat, queueMax: nat,
    alive: int, busy: int, wait: int,
    cur: int, front: int, rear: int,
    ring: seq<Task>, slots: seq<Slot>, manager: Manager,
    added: seq<Task>, taken: seq<Task>, finished: set<nat>, failed: nat)

  // ---------------------------------------------------------------- the steps

  /** Producer_add once the lock is held; on a full queue the caller goes on waiting.
      (An index outside the ring, which RingInv excludes, changes nothing; likewise below.) */
  function Produce(p: Pool, task: Task): Pool {
    if p.cur == p.queueMax || !(0 <= p.front < |p.ring|) || p.queueMax == 0 then p
    else p.(ring := p.ring[p.front := task],
            front := (p.front + 1) % p.queueMax,
            cur := p.cur + 1,
            added := p.added + [task])
  }

  /** A worker that holds the lock: wait on, retire, or take a task. */
  function Turn(p: Pool, w: nat): Pool {
    if w >= |p.slots| || p.slots[w] != Idle || p.cur == 0 then p
    else if p.wait > 0 && p.alive > p.min then
      p.(wait := p.wait - 1, alive := p.alive - 1, slots := p.slots[w := Leaving])
    else if !(0 <= p.rear < |p.ring|) || p.queueMax == 0 then p
    else p.(taken := p.taken + [p.ring[p.rear]],
            rear := (p.rear + 1) % p.queueMax,
            cur := p.cur - 1,
            busy := p.busy + 1,
            slots := p.slots[w := Running(|p.taken|)])
  }

  /** The worker is back from its task. */
  function Finish(p: Pool, w: nat): Pool {
    if w >= |p.slots| || !p.slots[w].Running? then p
    else p.(busy := p.busy - 1,
            slots := p.slots[w := Idle],
            finished := p.finished + {p.slots[w].k})
  }

  function Exit(p: Pool, w: nat): Pool {
    if w >= |p.slots| || p.slots[w] != Leaving then p
    else p.(slots := p.slots[w := Gone])
  }

  /** The growth test on a snapshot: more tasks than idle workers, or at least 80 percent busy. */
  predicate WantsMore(max: nat, alive: int, busy: int, cur: int) {
    && (cur > alive - busy || (alive > 0 && 100 * busy >= 80 * alive))
    && max > alive
  }

  /** if_thread_alive may take an exited thread for alive (`seenDead` is false), never the converse. */
  predicate Free(s: Slot, seenDead: bool) {
    s == Vacant || (s == Gone && seenDead)
  }

  /** One step of the manager; a failing pthread_create is counted as alive all the same. */
  function Manage(p: Pool, seenDead: bool, created: bool): Pool {
    match p.manager
    case Asleep => p.(manager := Looking(p.alive, p.busy, p.cur))
    case Looking(alive, busy, cur) =>
      p.(manager := if WantsMore(p.max, alive, busy, cur) then Adding(alive, busy, 0, 0) else Shrinking(alive, busy))
    case Adding(alive, busy, j, i) =>
      if j >= p.min then p.(manager := Shrinking(alive, busy))
      else if i >= |p.slots| then p.(manager := Adding(alive, busy, j + 1, 0))
      else if !Free(p.slots[i], seenDead) then p.(manager := Adding(alive, busy, j, i + 1))
      else p.(manager := Adding(alive, busy, j + 1, 0),
              alive := p.alive + 1,
              slots := if created then p.slots[i := Idle] else p.slots,
              failed := if created then p.failed else p.failed + 1)
    case Shrinking(alive, busy) =>
      p.(manager := Asleep, wait := if busy * 2 < alive - busy && alive > p.min then DEF_COUNT else p.wait)
  }

  datatype Event =
    | Producing(task: Task)
    | Taking(w: nat)
    | Finishing(w: nat)
    | Exiting(w: nat)
    | Managing(seenDead: bool, created: bool)

  function Apply(p: Pool, e: Event): Pool {
    match e
    case Producing(task) => Produce(p, task)
    case Taking(w) => Turn(p, w)
    case Finishing(w) => Finish(p, w)
    case Exiting(w) => Exit(p, w)
    case Managing(seenDead, created) => Manage(p, seenDead, created)
  }

  function Run(p: Pool, events: seq<Event>): Pool {
    if events == [] then p else Apply(Run(p, events[..|events| - 1]), events[|events| - 1])
  }

  /** The pool as Pool_create leaves it. */
  ghost predicate Created(p: Pool) {
    && p.min <= p.max && |p.ring| == p.queueMax && |p.slots| == p.max
    && p.alive == p.min && p.busy == 0 && p.wait == 0
    && p.cur == 0 && p.front == 0 && p.rear == 0
    && (forall i :: 0 <= i < p.max ==> p.slots[i] == if i < p.min then Idle else Vacant)
    && p.manager == Asleep
    && p.added == [] && p.taken == [] && p.finished == {} && p.failed == 0
  }

  // ---------------------------------------------------------------- counting workers

  predicate Counted(s: Slot) {
    s.Idle? || s.Running?
  }

  function Workers(slots: seq<Slot>): nat {
    Count(slots, s => Counted(s))
  }

  function Busy(slots: seq<Slot>): nat {
    Count(slots, (s: Slot) => s.Running?)
  }

  lemma {:induction false} CountPrefix(slots: seq<Slot>, n: nat, f: Slot -> bool)
    requires n <= |slots|
    requires forall i :: 0 <= i < |slots| ==> (f(slots[i]) <==> i < n)
    ensures Count(slots, f) == n
  {
    if slots != [] {
      CountPrefix(slots[1..], if n == 0 then 0 else n - 1, f);
    }
  }

  lemma BusyPrefix(slots: seq<Slot>, n: nat)
    requires n <= |slots| && forall i :: 0 <= i < |slots| ==> (slots[i].Running? <==> i < n)
    ensures Busy(slots) == n
  {
    CountPrefix(slots, n, (s: Slot) => s.Running?);
  }

  lemma {:induction false} BusyAtMostWorkers(slots: seq<Slot>)
    ensures Busy(slots) <= Workers(slots)
  {
    if slots != [] {
      BusyAtMostWorkers(slots[1..]);
    }
  }

  // ---------------------------------------------------------------- the invariants

  /** The ring position k places after `rear`. */
  function Wrap(x: int, q: nat): int {
    if x < q then x else x - q
  }

  lemma WrapIsMod(x: nat, q: nat)
    requires q > 0 && x < 2 * q
    ensures x % q == Wrap(x, q)
  {}

  /** The entry k places after `rear`. */
  function Nth(ring: seq<Task>, rear: nat, k: nat): Task
    requires rear < |ring| && k < |ring|
  {
    ring[Wrap(rear + k, |ring|)]
  }

  ghost predicate RingInv(p: Pool) {
    && |p.ring| == p.queueMax
    && 0 <= p.cur <= p.queueMax
    && (if p.queueMax == 0 then p.front == p.rear == 0
        else 0 <= p.rear < p.queueMax && p.front == Wrap(p.rear + p.cur, p.queueMax))
    && |p.added| == |p.taken| + p.cur
    && p.taken == p.added[..|p.taken|]
    && (forall k :: 0 <= k < p.cur ==> Nth(p.ring, p.rear, k) == p.added[|p.taken| + k])
  }

  ghost predicate CountInv(p: Pool) {
    && p.min <= p.max && |p.slots| == p.max
    && p.min <= p.alive == Workers(p.slots) + p.failed
    && p.busy == Busy(p.slots)
    && 0 <= p.wait <= DEF_COUNT
  }

  /** Of the first `n` tasks taken, each is with exactly one worker or finished, never both. */
  ghost predicate Once(slots: seq<Slot>, n: nat, finished: set<nat>) {
    && (forall k :: k in finished ==> k < n)
    && (forall i :: 0 <= i < |slots| && slots[i].Running? ==> slots[i].k < n && slots[i].k !in finished)
    && (forall i, j :: 0 <= i < j < |slots| && slots[i].Running? && slots[j].Running? ==> slots[i].k != slots[j].k)
    && (forall k :: 0 <= k < n && k !in finished ==> Running(k) in slots)
  }

  ghost predicate OnceInv(p: Pool) {
    Once(p.slots, |p.taken|, p.finished)
  }

  lemma ProduceKeepsRing(p: Pool, task: Task)
    requires RingInv(p)
    ensures RingInv(Produce(p, task))
  {
    if p.cur != p.queueMax {
      var q := Produce(p, task);
      WrapIsMod(p.front + 1, p.queueMax);
      forall k | 0 <= k < q.cur
        ensures Nth(q.ring, q.rear, k) == q.added[|q.taken| + k]
      {
        if k < p.cur {
          assert Nth(p.ring, p.rear, k) == p.added[|p.taken| + k];
        }
      }
      assert q.added[..|q.taken|] == p.added[..|p.taken|];
    }
  }

  lemma TurnKeepsRing(p: Pool, w: nat)
    requires RingInv(p)
    ensures RingInv(Turn(p, w))
  {
    var q := Turn(p, w);
    if |q.taken| != |p.taken| {
      WrapIsMod(p.rear + 1, p.queueMax);
      var n := |p.taken|;
      assert Nth(p.ring, p.rear, 0) == p.added[n + 0];
      assert p.added[..n + 1] == p.added[..n] + [p.added[n]];
      forall k | 0 <= k < q.cur
        ensures Nth(q.ring, q.rear, k) == q.added[n + 1 + k]
      {
        assert Nth(p.ring, p.rear, k + 1) == p.added[n + (k + 1)];
      }
    }
  }

  /**
   What a worker with the lock does. It retires if and only if there is something to do, retiring is asked for
   and the pool is above its minimum. Otherwise it takes the oldest task, or waits if there is none.
   */
  lemma TurnTakesOrRetires(p: Pool, w: nat)
    requires RingInv(p) && w < |p.slots| && p.slots[w] == Idle
    ensures var q := Turn(p, w);
            var retires := p.cur > 0 && p.wait > 0 && p.alive > p.min;
            && (q.slots[w] == Leaving <==> retires)
            && (retires ==> q.alive == p.alive - 1 && q.wait == p.wait - 1 && q.taken == p.taken && q.cur == p.cur && q.ring == p.ring && q.busy == p.busy)
            && (p.cur > 0 && !retires ==>
                  && q.taken == p.taken + [p.added[|p.taken|]] && q.cur == p.cur - 1 && q.busy == p.busy + 1
                  && q.slots[w] == Running(|p.taken|) && q.alive == p.alive && q.wait == p.wait)
            && (p.cur == 0 ==> q == p)
            && q.added == p.added && q.finished == p.finished && q.manager == p.manager
            && forall i :: 0 <= i < |p.slots| && i != w ==> q.slots[i] == p.slots[i]
  {
    if p.cur > 0 {
      assert Nth(p.ring, p.rear, 0) == p.added[|p.taken| + 0];
    }
  }

  /** A producer gets its task in if and only if there is room. */
  lemma ProduceAddsIff(p: Pool, task: Task)
    requires RingInv(p)
    ensures var q := Produce(p, task);
            if p.cur < p.queueMax then q.added == p.added + [task] && q.cur == p.cur + 1 && q.taken == p.taken && q.slots == p.slots
            else q == p
  {}

  lemma ApplyKeepsRing(p: Pool, e: Event)
    requires RingInv(p)
    ensures RingInv(Apply(p, e))
  {
    match e
    case Producing(task) => ProduceKeepsRing(p, task);
    case Taking(w) => TurnKeepsRing(p, w);
    case Finishing(_) =>
    case Exiting(_) =>
    case Managing(_, _) =>
  }

  lemma SlotChange(p: Pool, i: nat, s: Slot)
    requires i < |p.slots|
    ensures Workers(p.slots[i := s])
         == Workers(p.slots) - (if Counted(p.slots[i]) then 1 else 0) + (if Counted(s) then 1 else 0)
    ensures Busy(p.slots[i := s])
         == Busy(p.slots) - (if p.slots[i].Running? then 1 else 0) + (if s.Running? then 1 else 0)
  {
    CountUpdate(p.slots, i, s, x => Counted(x));
    CountUpdate(p.slots, i, s, (x: Slot) => x.Running?);
  }

  lemma ApplyKeepsCounts(p: Pool, e: Event)
    requires CountInv(p)
    ensures CountInv(Apply(p, e))
  {
    match e
    case Producing(_) =>
    case Taking(w) =>
      if w < |p.slots| {
        SlotChange(p, w, Leaving);
        SlotChange(p, w, Running(|p.taken|));
      }
    case Finishing(w) =>
      if w < |p.slots| {
        SlotChange(p, w, Idle);
      }
    case Exiting(w) =>
      if w < |p.slots| {
        SlotChange(p, w, Gone);
      }
    case Managing(_, _) =>
      if p.manager.Adding? && p.manager.i < |p.slots| {
        SlotChange(p, p.manager.i, Idle);
      }
  }

  lemma KeepRunning(slots: seq<Slot>, i: nat, s: Slot, k: nat)
    requires i < |slots| && Running(k) in slots && slots[i] != Running(k)
    ensures Running(k) in slots[i := s]
  {
    var j :| 0 <= j < |slots| && slots[j] == Running(k);
    assert slots[i := s][j] == Running(k);
  }

  /** A slot changes that runs no task before or after, or that takes up the task n. */
  lemma OnceSlot(slots: seq<Slot>, n: nat, finished: set<nat>, w: nat, s: Slot)
    requires Once(slots, n, finished) && w < |slots| && !slots[w].Running?
    ensures !s.Running? ==> Once(slots[w := s], n, finished)
    ensures s == Running(n) ==> Once(slots[w := s], n + 1, finished)
  {
    forall k | 0 <= k < n && k !in finished
      ensures Running(k) in slots[w := s]
    {
      KeepRunning(slots, w, s, k);
    }
    assert slots[w := s][w] == s;
  }

  lemma OnceFinish(slots: seq<Slot>, n: nat, finished: set<nat>, w: nat)
    requires Once(slots, n, finished) && w < |slots| && slots[w].Running?
    ensures Once(slots[w := Idle], n, finished + {slots[w].k})
  {
    forall k | 0 <= k < n && k !in finished + {slots[w].k}
      ensures Running(k) in slots[w := Idle]
    {
      KeepRunning(slots, w, Idle, k);
    }
  }

  lemma ApplyKeepsOnce(p: Pool, e: Event)
    requires OnceInv(p)
    ensures OnceInv(Apply(p, e))
  {
    match e
    case Producing(_) =>
    case Taking(w) =>
      if w < |p.slots| && p.slots[w] == Idle {
        OnceSlot(p.slots, |p.taken|, p.finished, w, Leaving);
        OnceSlot(p.slots, |p.taken|, p.finished, w, Running(|p.taken|));
      }
    case Finishing(w) =>
      if w < |p.slots| && p.slots[w].Running? {
        OnceFinish(p.slots, |p.taken|, p.finished, w);
      }
    case Exiting(w) =>
      if w < |p.slots| && p.slots[w] == Leaving {
        OnceSlot(p.slots, |p.taken|, p.finished, w, Gone);
      }
    case Managing(seenDead, created) => ManageKeepsOnce(p, seenDead, created);
  }

  lemma ManageKeepsOnce(p: Pool, seenDead: bool, created: bool)
    requires OnceInv(p)
    ensures OnceInv(Manage(p, seenDead, created))
  {
    if p.manager.Adding? && p.manager.i < |p.slots| && !p.slots[p.manager.i].Running? {
      OnceSlot(p.slots, |p.taken|, p.finished, p.manager.i, Idle);
    }
  }

  ghost predicate PoolInv(p: Pool) {
    RingInv(p) && CountInv(p) && OnceInv(p)
  }

  lemma CreatedInv(p: Pool)
    requires Created(p)
    ensures PoolInv(p)
  {
    CountPrefix(p.slots, p.min, s => Counted(s));
    CountPrefix(p.slots, 0, (s: Slot) => s.Running?);
  }

  lemma ApplyKeepsInv(p: Pool, e: Event)
    requires PoolInv(p)
    ensures PoolInv(Apply(p, e))
    ensures var q := Apply(p, e); q.max == p.max && q.min == p.min && q.queueMax == p.queueMax
  {
    ApplyKeepsRing(p, e);
    ApplyKeepsCounts(p, e);
    ApplyKeepsOnce(p, e);
  }

  lemma {:induction false} RunKeepsInv(p: Pool, events: seq<Event>)
    requires Created(p)
    ensures PoolInv(Run(p, events))
    ensures var q := Run(p, events); q.max == p.max && q.min == p.min && q.queueMax == p.queueMax
    decreases |events|
  {
    if events == [] {
      CreatedInv(p);
    } else {
      var before, e := events[..|events| - 1], events[|events| - 1];
      RunKeepsInv(p, before);
      var q := Run(p, before);
      ApplyKeepsInv(q, e);
    }
  }

  // ---------------------------------------------------------------- what every run satisfies

  /**
   Bounds in every reachable state. The counter is exact up to creations that failed unnoticed, so
   it stays within thread_max whenever none failed.
   */
  lemma ThreadBounds(p: Pool, events: seq<Event>)
    requires Created(p)
    ensures var q := Run(p, events);
            && p.min <= q.alive == Workers(q.slots) + q.failed <= p.max + q.failed
            && (q.failed == 0 ==> q.alive <= p.max)
            && 0 <= q.busy <= Workers(q.slots) <= q.alive
            && 0 <= q.wait <= 10
  {
    RunKeepsInv(p, events);
    BusyAtMostWorkers(Run(p, events).slots);
  }

  /** How far the counter can get: one round starts below the maximum and adds at most `min`. */
  function Limit(p: Pool): int {
    if p.min == 0 || p.min == p.max then p.max else p.max + p.min - 1
  }

  /** The round that is under way started below the maximum, and has added at most `j` since. */
  ghost predicate RoundInv(p: Pool) {
    && p.alive <= Limit(p)
    && match p.manager
       case Looking(alive, _, _) => p.min <= alive && p.alive <= alive
       case Adding(alive, _, j, _) => p.min <= alive < p.max && j <= p.min && p.alive <= alive + j
       case _ => true
  }

  lemma ApplyKeepsRound(p: Pool, e: Event)
    requires RoundInv(p) && CountInv(p)
    ensures RoundInv(Apply(p, e))
  {}

  lemma {:induction false} RunKeepsRound(p: Pool, events: seq<Event>)
    requires Created(p)
    ensures RoundInv(Run(p, events)) && CountInv(Run(p, events))
    ensures var q := Run(p, events); q.max == p.max && q.min == p.min
    decreases |events|
  {
    RunKeepsInv(p, events);
    if events != [] {
      var before := events[..|events| - 1];
      RunKeepsRound(p, before);
      ApplyKeepsRound(Run(p, before), events[|events| - 1]);
    }
  }

  /**
   However many creations fail unnoticed, the counter never gets beyond thread_max + thread_min - 1;
   with thread_min at most 1, or equal to thread_max, it never gets beyond thread_max.
   */
  lemma OvercountBound(p: Pool, events: seq<Event>)
    requires Created(p)
    ensures var q := Run(p, events);
            && (p.min > 0 ==> q.alive <= p.max + p.min - 1)
            && (p.min <= 1 || p.min == p.max ==> q.alive <= p.max)
  {
    RunKeepsRound(p, events);
  }

  const T := Task(0, 0)

  /** Ring indices in every reachable state, with the index arithmetic of the code. */
  lemma RingIndices(p: Pool, events: seq<Event>)
    requires Created(p) && p.queueMax > 0
    ensures var q := Run(p, events);
            0 <= q.cur <= p.queueMax && 0 <= q.rear < p.queueMax && q.front == (q.rear + q.cur) % p.queueMax
  {
    RunKeepsInv(p, events);
    IndicesOf(Run(p, events));
  }

  lemma IndicesOf(p: Pool)
    requires RingInv(p) && p.queueMax > 0
    ensures p.front == (p.rear + p.cur) % p.queueMax
  {
    WrapIsMod(p.rear + p.cur, p.queueMax);
  }

  /** The tasks in the ring, oldest first. */
  ghost function Contents(p: Pool): (r: seq<Task>)
    requires RingInv(p)
    ensures |r| == p.cur
  {
    seq(p.cur, k requires 0 <= k < p.cur => Nth(p.ring, p.rear, k))
  }

  lemma ContentsAre(p: Pool)
    requires RingInv(p)
    ensures Contents(p) == p.added[|p.taken|..] && p.taken + Contents(p) == p.added
  {}

  /** FIFO: in every reachable state the tasks taken, then those in the ring, are the tasks added. */
  lemma FifoRefinement(p: Pool, events: seq<Event>)
    requires Created(p)
    ensures PoolInv(Run(p, events))
    ensures var q := Run(p, events); q.taken + Contents(q) == q.added
  {
    RunKeepsInv(p, events);
    ContentsAre(Run(p, events));
  }

  /** Each task ever added is pending, with one worker, or finished: exactly one of these. */
  lemma EveryTaskOnce(p: Pool, events: seq<Event>, k: nat)
    requires Created(p) && k < |Run(p, events).added|
    ensures var q := Run(p, events);
            var pending := |q.taken| <= k;
            var running := exists i :: 0 <= i < |q.slots| && q.slots[i] == Running(k);
            var done := k in q.finished;
            && (pending || running || done)
            && !(pending && running) && !(pending && done) && !(running && done)
            && (forall i, j :: 0 <= i < |q.slots| && 0 <= j < |q.slots| && q.slots[i] == Running(k) == q.slots[j] ==> i == j)
  {
    RunKeepsInv(p, events);
    var q := Run(p, events);
    if k < |q.taken| && k !in q.finished {
      assert Running(k) in q.slots;
    }
  }

  // ---------------------------------------------------------------- the object

  /**
   The pool in place. Each method is one step on the abstract pool; ApplyKeepsInv carries the
   invariant from its precondition to the state it leaves.
   */
  class ThreadPool {
    const thread_max: nat
    const thread_min: nat
    const queue_max: nat
    var thread_alive: int
    var thread_busy: int
    var thread_wait: int
    var queue_cur: int
    var queue_front: int
    var queue_rear: int
    const queue_task: array<Task>
    const tids: array<Slot>
    var manager: Manager
    // history, for the specification
    var added: seq<Task>
    var taken: seq<Task>
    var finished: set<nat>
    var failed: nat

    ghost function Abs(): Pool
      reads this, queue_task, tids
    {
      Pool(thread_max, thread_min, queue_max, thread_alive, thread_busy, thread_wait,
           queue_cur, queue_front, queue_rear, queue_task[..], tids[..], manager,
           added, taken, finished, failed)
    }

    /** The structure, before any thread has been created. */
    constructor (max: nat, min: nat, queMax: nat)
      ensures thread_max == max && thread_min == min && queue_max == queMax
      ensures Abs() == Pool(max, min, queMax, 0, 0, 0, 0, 0, 0, seq(queMax, _ => T), seq(max, _ => Vacant), Asleep, [], [], {}, 0)
      ensures fresh(tids) && fresh(queue_task)
    {
      thread_max, thread_min, queue_max := max, min, queMax;
      thread_alive, thread_busy, thread_wait := 0, 0, 0;
      queue_cur, queue_front, queue_rear := 0, 0, 0;
      tids := new Slot[max](_ => Vacant);
      queue_task := new Task[queMax](_ => T);
      manager := Asleep;
      added, taken, finished, failed := [], [], {}, 0;
      new;
      assert tids[..] == seq(max, _ => Vacant) && queue_task[..] == seq(queMax, _ => T);
    }

    /**
     Pool_create on a new structure: the initial workers, and then the manager, which is creation number
     thread_min. The first creation that fails ends it, with the workers created so far left running.
     */
    method PoolCreate(creates: nat -> bool) returns (ok: bool)
      requires thread_min <= thread_max == tids.Length && queue_max == queue_task.Length
      requires Abs() == Pool(thread_max, thread_min, queue_max, 0, 0, 0, 0, 0, 0, queue_task[..], seq(thread_max, _ => Vacant), Asleep, [], [], {}, 0)
      modifies this`thread_alive, tids
      ensures ok <==> forall i :: 0 <= i <= thread_min ==> creates(i)
      ensures ok ==> Created(Abs())
      ensures 0 <= thread_alive <= thread_min && (forall i :: 0 <= i < thread_alive ==> creates(i))
      ensures !ok ==> !creates(thread_alive)
      ensures forall k :: 0 <= k < thread_max ==> tids[k] == if k < thread_alive then Idle else Vacant
    {
      assert forall k :: 0 <= k < thread_max ==> tids[k] == tids[..][k] == Vacant;
      for i := 0 to thread_min
        invariant thread_alive == i
        invariant forall k :: 0 <= k < i ==> creates(k)
        invariant forall k :: 0 <= k < thread_max ==> tids[k] == if k < i then Idle else Vacant
        modifies this`thread_alive, tids
      {
        if !creates(i) {
          return false;
        }
        tids[i] := Idle;
        thread_alive := thread_alive + 1;
      }
      ok := creates(thread_min);
    }

    /** One attempt of Producer_add; `blocked` when it has to wait for room. */
    method ProducerAdd(task: Task) returns (blocked: bool)
      requires PoolInv(Abs())
      modifies this, queue_task
      ensures Abs() == Apply(old(Abs()), Producing(task))
      ensures blocked <==> old(queue_cur) == queue_max
      ensures added == (if blocked then old(added) else old(added) + [task]) && taken == old(taken)
      ensures queue_cur == (if blocked then old(queue_cur) else old(queue_cur) + 1)
    {
      ghost var was := Abs();
      blocked := queue_cur == queue_max;
      if !blocked {
        queue_task[queue_front] := task;
        queue_front := (queue_front + 1) % queue_max;
        queue_cur := queue_cur + 1;
        added := added + [task];
        assert queue_task[..] == was.ring[was.front := task];
      }
    }

    /** The locked part of the worker loop; a task taken is returned for execution. */
    method CustomTurn(w: nat) returns (task: Task, got: bool)
      requires PoolInv(Abs())
      requires w < tids.Length && tids[w] == Idle
      modifies this, tids
      ensures Abs() == Apply(old(Abs()), Taking(w))
      ensures got <==> old(queue_cur) > 0 && !(old(thread_wait) > 0 && old(thread_alive) > thread_min)
      ensures got ==>
                && task == old(added)[|old(taken)|] && taken == old(taken) + [task] && tids[w] == Running(|old(taken)|)
                && queue_cur == old(queue_cur) - 1 && thread_busy == old(thread_busy) + 1
                && thread_alive == old(thread_alive) && thread_wait == old(thread_wait)
      ensures !got && old(queue_cur) > 0 ==>
                && taken == old(taken) && queue_cur == old(queue_cur) && queue_task[..] == old(queue_task[..]) && tids[w] == Leaving
                && thread_alive == old(thread_alive) - 1 && thread_wait == old(thread_wait) - 1 && thread_busy == old(thread_busy)
      ensures old(queue_cur) == 0 ==> Abs() == old(Abs())
    {
      ghost var was := Abs();
      TurnTakesOrRetires(was, w);
      task, got := T, false;
      if queue_cur == 0 {
        return;
      }
      if thread_wait > 0 && thread_alive > thread_min {
        thread_wait := thread_wait - 1;
        thread_alive := thread_alive - 1;
        tids[w] := Leaving;
      } else {
        assert Nth(was.ring, was.rear, 0) == was.added[|was.taken| + 0];
        task := queue_task[queue_rear];
        queue_rear := (queue_rear + 1) % queue_max;
        queue_cur := queue_cur - 1;
        thread_busy := thread_busy + 1;
        tids[w] := Running(|taken|);
        taken := taken + [task];
        got := true;
      }
      assert tids[..] == was.slots[w := tids[w]];
    }

    method CustomDone(w: nat)
      requires PoolInv(Abs())
      requires w < tids.Length && tids[w].Running?
      modifies this, tids
      ensures Abs() == Apply(old(Abs()), Finishing(w))
    {
      ghost var was := Abs();
      thread_busy := thread_busy - 1;
      finished := finished + {tids[w].k};
      tids[w] := Idle;
      assert tids[..] == was.slots[w := Idle];
    }

    /** The creation of a worker in entry i, under the lock. */
    method AddWorker(i: nat, created: bool)
      requires i < tids.Length
      modifies this`thread_alive, this`failed, tids
      ensures thread_alive == old(thread_alive) + 1
      ensures tids[..] == if created then old(tids[..])[i := Idle] else old(tids[..])
      ensures failed == old(failed) + if created then 0 else 1
    {
      if created {
        tids[i] := Idle;
      } else {
        failed := failed + 1;
      }
      thread_alive := thread_alive + 1;
    }

    method ManagerStep(seenDead: bool, created: bool)
      requires PoolInv(Abs())
      modifies this, tids
      ensures Abs() == Apply(old(Abs()), Managing(seenDead, created))
    {
      match manager
      case Asleep =>
        manager := Looking(thread_alive, thread_busy, queue_cur);
      case Looking(alive, busy, cur) =>
        if (cur > alive - busy || (alive > 0 && 100 * busy >= 80 * alive)) && thread_max > alive {
          manager := Adding(alive, busy, 0, 0);
        } else {
          manager := Shrinking(alive, busy);
        }
      case Adding(alive, busy, j, i) =>
        if j >= thread_min {
          manager := Shrinking(alive, busy);
        } else if i >= thread_max {
          manager := Adding(alive, busy, j + 1, 0);
        } else if tids[i] == Vacant || (tids[i] == Gone && seenDead) {
          AddWorker(i, created);
          manager := Adding(alive, busy, j + 1, 0);
        } else {
          manager := Adding(alive, busy, j, i + 1);
        }
      case Shrinking(alive, busy) =>
        if busy * 2 < alive - busy && alive > thread_min {
          thread_wait := DEF_COUNT;
        }
        manager := Asleep;
    }
  }
}
