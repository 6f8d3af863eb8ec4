/**
 What the safety of the pool does not say: whether tasks are run. As long as fewer creations have failed than
 there are initial workers, everything that waits can be run. But creations that fail are counted as workers,
 so the real ones may all be retired in favour of them, and the pool dies.
 */
module ThreadPoolProgress {
  import opened Sequences
  import opened ThreadPool
  import opened ThreadPoolOvercount

  // ---------------------------------------------------------------- the manager's decisions

  /**
   The manager goes on to create workers if and only if it saw fewer than the maximum, and either more tasks
   than idle workers or at least four of five workers busy.
   */
  lemma GrowsIff(p: Pool, seenDead: bool, created: bool)
    requires p.manager.Asleep?
    ensures var q := Manage(Manage(p, seenDead, created), seenDead, created);
            && q == p.(manager := q.manager)
            && if p.max > p.alive && (p.cur > p.alive - p.busy || (p.alive > 0 && 5 * p.busy >= 4 * p.alive))
               then q.manager == Adding(p.alive, p.busy, 0, 0)
               else q.manager == Shrinking(p.alive, p.busy)
  {}

  /** It asks ten workers to retire if and only if it saw more than the minimum and less than a third of them busy. */
  lemma ShrinksIff(p: Pool, seenDead: bool, created: bool)
    requires p.manager.Shrinking?
    ensures var q := Manage(p, seenDead, created);
            && q == p.(manager := Asleep, wait := q.wait)
            && q.wait == if 3 * p.manager.busy < p.manager.alive && p.manager.alive > p.min then 10 else p.wait
  {}

  // ---------------------------------------------------------------- everything can be run

  lemma {:induction false} RunAppend(p: Pool, a: seq<Event>, b: seq<Event>)
    ensures Run(p, a + b) == Run(Run(p, a), b)
    decreases |b|
  {
    if b == [] {
      assert a + b == a;
    } else {
      var front, last := b[..|b| - 1], b[|b| - 1];
      assert a + b == (a + front) + [last];
      assert ((a + front) + [last])[..|a + front|] == a + front;
      RunAppend(p, a, front);
    }
  }

  lemma RunOne(p: Pool, e: Event)
    ensures Run(p, [e]) == Apply(p, e)
  {
    assert [e][..0] == [];
    assert Run(p, [e][..0]) == p;
  }

  lemma {:induction false} SomeCounted(slots: seq<Slot>, f: Slot -> bool)
    ensures Count(slots, f) > 0 <==> exists i :: 0 <= i < |slots| && f(slots[i])
  {
    if slots != [] {
      SomeCounted(slots[1..], f);
      if i :| 0 <= i < |slots| && f(slots[i]) {
        if i > 0 {
          assert slots[1..][i - 1] == slots[i];
        }
      }
      if j :| 0 <= j < |slots[1..]| && f(slots[1..][j]) {
        assert slots[j + 1] == slots[1..][j];
      }
    }
  }

  /** A worker that is back from its task, or that had none. */
  lemma SomeIdle(p: Pool) returns (q: Pool, e: seq<Event>, w: nat)
    requires PoolInv(p) && p.failed < p.min
    ensures Run(p, e) == q && PoolInv(q) && w < |q.slots| && q.slots[w] == Idle
    ensures q.cur == p.cur && q.wait == p.wait && q.added == p.added && q.taken == p.taken && q.failed == p.failed && q.min == p.min
  {
    SomeCounted(p.slots, s => Counted(s));
    w :| 0 <= w < |p.slots| && Counted(p.slots[w]);
    if p.slots[w] == Idle {
      q, e := p, [];
    } else {
      q, e := Finish(p, w), [Finishing(w)];
      RunOne(p, Finishing(w));
      ApplyKeepsInv(p, Finishing(w));
    }
  }

  /** Workers take turns until nothing waits; retirement can only delay that. */
  lemma {:induction false} PendingCanBeTaken(p: Pool) returns (events: seq<Event>)
    requires PoolInv(p) && p.failed < p.min
    ensures var q := Run(p, events);
            PoolInv(q) && q.cur == 0 && q.added == p.added
    decreases p.cur + p.wait
  {
    if p.cur == 0 {
      events := [];
    } else {
      var q, before, w := SomeIdle(p);
      TurnTakesOrRetires(q, w);
      ApplyKeepsInv(q, Taking(w));
      RunOne(q, Taking(w));
      var after := PendingCanBeTaken(Turn(q, w));
      RunAppend(q, [Taking(w)], after);
      RunAppend(p, before, [Taking(w)] + after);
      events := before + ([Taking(w)] + after);
    }
  }

  lemma {:induction false} RunningCanFinish(p: Pool) returns (events: seq<Event>)
    requires PoolInv(p) && p.cur == 0
    ensures var q := Run(p, events);
            PoolInv(q) && q.cur == 0 && q.added == p.added && q.busy == 0
    decreases p.busy
  {
    BusyAtMostWorkers(p.slots);
    if p.busy == 0 {
      events := [];
    } else {
      SomeCounted(p.slots, (s: Slot) => s.Running?);
      var w :| 0 <= w < |p.slots| && p.slots[w].Running?;
      ApplyKeepsInv(p, Finishing(w));
      RunOne(p, Finishing(w));
      var after := RunningCanFinish(Finish(p, w));
      RunAppend(p, [Finishing(w)], after);
      events := [Finishing(w)] + after;
    }
  }

  /**
   From every reachable state in which fewer creations have failed than there are initial workers, some
   continuation runs and finishes every task ever added.
   */
  lemma EverythingCanBeRun(p: Pool, events: seq<Event>) returns (more: seq<Event>)
    requires Created(p) && Run(p, events).failed < p.min
    ensures var q, r := Run(p, events), Run(p, events + more);
            r.added == q.added && forall k :: 0 <= k < |q.added| ==> k in r.finished
  {
    RunKeepsInv(p, events);
    var q := Run(p, events);
    var first := PendingCanBeTaken(q);
    var second := RunningCanFinish(Run(q, first));
    more := first + second;
    RunAppend(q, first, second);
    RunAppend(p, events, more);
    var r := Run(q, more);
    SomeCounted(r.slots, (s: Slot) => s.Running?);
    assert forall i :: 0 <= i < |r.slots| ==> !r.slots[i].Running?;
    assert forall k :: 0 <= k < |q.added| ==> k in r.finished || Running(k) in r.slots;
  }

  // ---------------------------------------------------------------- the pool can die

  /** No worker is left, and the manager sees no reason for another one. */
  ghost predicate Dead(p: Pool) {
    && CountInv(p) && RingInv(p) && (p.min == 0 || p.alive >= p.max || p.alive >= p.queueMax)
    && (forall i :: 0 <= i < |p.slots| ==> !Counted(p.slots[i])) && p.busy == 0
    && match p.manager
       case Looking(alive, busy, cur) => alive == p.alive && busy == 0 && cur <= p.queueMax
       case Adding(_, _, _, _) => p.min == 0
       case _ => true
  }

  lemma DeadStaysDead(p: Pool, e: Event)
    requires Dead(p)
    ensures Dead(Apply(p, e)) && Apply(p, e).taken == p.taken && Apply(p, e).cur >= p.cur
  {
    ApplyKeepsCounts(p, e);
    ApplyKeepsRing(p, e);
  }

  lemma {:induction false} DeadForEver(p: Pool, more: seq<Event>)
    requires Dead(p)
    ensures Dead(Run(p, more)) && Run(p, more).taken == p.taken && Run(p, more).cur >= p.cur
    decreases |more|
  {
    if more != [] {
      DeadForEver(p, more[..|more| - 1]);
      DeadStaysDead(Run(p, more[..|more| - 1]), more[|more| - 1]);
    }
  }

  /** The manager, finding too few busy, sets ten workers on retirement. */
  lemma AskTen(p: Pool, q: Pool, workers: nat, used: nat, failed: nat) returns (r: Pool)
    requires Created(p) && Stage(p, q, 0, workers, used, failed, Asleep) && q.cur <= workers + failed && workers + failed > p.min
    ensures Stage(p, r, 0, workers, used, failed, Asleep) && r.cur == q.cur && r.wait == DEF_COUNT
  {
    r := Look(p, q, 0, workers, used, failed);
    r := Sleep(p, r, 0, workers, used, failed, Shrinking(workers + failed, 0));
  }

  /** All workers retire in favour of the failed creations, and one task is left. */
  lemma AllRetire(p: Pool, q: Pool, workers: nat, used: nat, failed: nat) returns (r: Pool)
    requires Created(p) && p.queueMax > 0 && 0 < p.min <= failed && Stage(p, q, 0, workers, used, failed, Asleep) && q.cur == 0
    ensures Stage(p, r, 0, 0, used, failed, Asleep) && r.cur == 1
  {
    Sound(p, q);
    Step(p, q, Producing(T));
    r := Produce(q, T);
    var left := workers;
    while left > 0
      invariant 0 <= left <= workers && Stage(p, r, 0, left, used, failed, Asleep) && r.cur == 1
    {
      r := AskTen(p, r, left, used, failed);
      var n := if left < DEF_COUNT then left else DEF_COUNT;
      r := RetireAll(p, r, 0, left, used, failed, n, Asleep);
      left := left - n;
    }
  }

  /** As long as the manager wants more workers, their creation fails. */
  lemma FailOn(p: Pool, q: Pool, used: nat, failed: nat) returns (r: Pool, f: nat)
    requires Created(p) && p.queueMax > 0 && 0 < p.min && used < p.max && Stage(p, q, 0, 0, used, failed, Asleep) && q.cur > 0
    ensures Stage(p, r, 0, 0, used, f, Asleep) && r.cur > 0 && (f >= p.max || f >= p.queueMax)
  {
    r, f := q, failed;
    while f < p.max && f < p.queueMax
      invariant Stage(p, r, 0, 0, used, f, Asleep) && r.cur > 0
      decreases p.max - f
    {
      r := FillQueue(p, r, 0, 0, used, f);
      r := Look(p, r, 0, 0, used, f);
      r := AddNone(p, r, 0, 0, used, f, Adding(f, 0, 0, 0), p.min);
      Step(p, r, Managing(false, true));
      r := Manage(r, false, true);
      r := Sleep(p, r, 0, 0, used, f + p.min, Shrinking(f, 0));
      f := f + p.min;
    }
  }

  /** From the new pool to a dead one: one round fails, all workers retire, and whatever is tried then fails. */
  lemma Dies(p: Pool) returns (q: Pool)
    requires Created(p) && 1 <= p.min < p.max && p.queueMax > 0
    ensures Reachable(p, q) && Dead(q) && q.cur > 0
  {
    assert Run(p, []) == p && NoneSeenDead([]);
    q := GiveAll(p, p, 0, p.min, p.min, p.min, 0, Asleep);
    q := Round(p, q, p.min, 0);
    q := FinishAll(p, q, p.min, p.min, p.min, p.min, Asleep);
    q := AllRetire(p, q, p.min, p.min, p.min);
    var f: nat;
    q, f := FailOn(p, q, p.min, p.min);
    Sound(p, q);
    BusyPrefix(q.slots, 0);
  }

  /** After some run a task waits and no continuation takes it. */
  ghost predicate CanDie(p: Pool) {
    exists events :: NoneSeenDead(events) && Run(p, events).cur > 0
                     && forall more :: Run(p, events + more).taken == Run(p, events).taken
  }

  lemma DiesIn(p: Pool, events: seq<Event>)
    requires NoneSeenDead(events) && Dead(Run(p, events)) && Run(p, events).cur > 0
    ensures CanDie(p)
  {
    forall more
      ensures Run(p, events + more).taken == Run(p, events).taken
    {
      RunAppend(p, events, more);
      DeadForEver(Run(p, events), more);
    }
  }

  lemma NeverDies(p: Pool, events: seq<Event>)
    requires Created(p) && 1 <= p.min == p.max && Run(p, events).cur > 0
    ensures exists more :: Run(p, events + more).taken != Run(p, events).taken
  {
    StaysStill(p, events);
    RunKeepsInv(p, events);
    var q := Run(p, events);
    NoneFailed(p, events);
    var more := PendingCanBeTaken(q);
    RunAppend(p, events, more);
    assert |Run(q, more).taken| == |q.added| > |q.taken|;
  }

  lemma {:induction false} NoneFailed(p: Pool, events: seq<Event>)
    requires Created(p) && 1 <= p.min == p.max
    ensures Run(p, events).failed == 0
    decreases |events|
  {
    if events != [] {
      var before := events[..|events| - 1];
      NoneFailed(p, before);
      StaysStill(p, before);
    }
  }

  /**
   A pool can die with a task waiting, for ever, if and only if its queue has room and it has either no initial
   worker at all or fewer than the maximum.
   */
  lemma DiesIff(p: Pool)
    requires Created(p)
    ensures CanDie(p) <==> p.queueMax > 0 && (p.min == 0 || p.min < p.max)
  {
    CreatedInv(p);
    if p.queueMax > 0 && p.min == 0 {
      RunOne(p, Producing(T));
      ProduceAddsIff(p, T);
      ApplyKeepsInv(p, Producing(T));
      DiesIn(p, [Producing(T)]);
    } else if p.queueMax > 0 && p.min < p.max {
      var q := Dies(p);
      var events :| NoneSeenDead(events) && Run(p, events) == q;
      DiesIn(p, events);
    } else {
      forall events | Run(p, events).cur > 0
        ensures exists more :: Run(p, events + more).taken != Run(p, events).taken
      {
        RunKeepsInv(p, events);
        if p.queueMax > 0 {
          NeverDies(p, events);
        }
      }
    }
  }
}
