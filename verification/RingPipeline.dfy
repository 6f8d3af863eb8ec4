/**
 The receive pipeline on the real thread pool: what the event loop and the workers queue goes through the
 ring buffer, which may be full, and is taken by workers that the manager starts and retires.
 */
module RingPipeline {
  import opened Sequences
  import O = OneShot
  import T = ThreadPool

  datatype System = System(net: O.Net, pool: T.Pool)

  /** `OnNet` is a step of the pipeline other than taking a task, `OnPool` one of the pool other than adding one. */
  datatype Event = OnNet(e: O.Event) | OnPool(p: T.Event)

  /** The step calls Producer_add. */
  predicate Queues(s: O.Net, e: O.Event) {
    O.Enabled(s, e) && (e.Dispatch? || (e.Work? && s.running[e.i].Holding?))
  }

  /** What is put into the ring: the argument points to the n-th task ever queued. */
  function Cell(n: nat): T.Task {
    T.Task(0, n)
  }

  /** A producer waits while the ring is full; a worker that takes a cell begins the task it points to. */
  function Apply(s: System, e: Event): System {
    match e
    case OnNet(e) =>
      if e.Take? || (Queues(s.net, e) && s.pool.cur == s.pool.queueMax) then s
      else System(O.Apply(s.net, e), if Queues(s.net, e) then T.Produce(s.pool, Cell(|s.net.added|)) else s.pool)
    case OnPool(e) =>
      if e.Producing? then s
      else
        var q := T.Apply(s.pool, e);
        System(if |q.taken| > |s.pool.taken| then O.Apply(s.net, O.Take) else s.net, q)
  }

  function Run(s: System, events: seq<Event>): System {
    if events == [] then s else Apply(Run(s, events[..|events| - 1]), events[|events| - 1])
  }

  /** The task that a cell points to. */
  function Pointed(added: seq<O.PoolTask>): T.Task -> O.PoolTask {
    (t: T.Task) => if 0 <= t.arg < |added| then added[t.arg] else O.RecvTask(0)
  }

  // ---------------------------------------------------------------- the queue is the ring

  /** The queue of the pipeline is what has been added and not taken, in the ring as in the list. */
  ghost predicate SystemInv(s: System) {
    && T.PoolInv(s.pool) && |s.pool.added| == |s.net.added|
    && (forall k :: 0 <= k < |s.pool.added| ==> s.pool.added[k] == Cell(k))
    && s.net.queue == s.net.added[|s.pool.taken|..]
  }

  lemma NetKeepsQueue(s: O.Net, e: O.Event)
    requires !e.Take?
    ensures var t := O.Apply(s, e);
            if Queues(s, e) then |t.added| == |s.added| + 1 && t.added[..|s.added|] == s.added && t.queue == s.queue + [t.added[|s.added|]]
            else t.added == s.added && t.queue == s.queue
  {}

  lemma OnNetKeepsInv(s: System, e: O.Event)
    requires SystemInv(s)
    ensures SystemInv(Apply(s, OnNet(e)))
  {
    if !e.Take? && !(Queues(s.net, e) && s.pool.cur == s.pool.queueMax) {
      NetKeepsQueue(s.net, e);
      if Queues(s.net, e) {
        T.ApplyKeepsInv(s.pool, T.Producing(Cell(|s.net.added|)));
        assert T.Produce(s.pool, Cell(|s.net.added|)) == T.Apply(s.pool, T.Producing(Cell(|s.net.added|)));
      }
    }
  }

  lemma OnPoolKeepsInv(s: System, e: T.Event)
    requires SystemInv(s)
    ensures SystemInv(Apply(s, OnPool(e)))
  {
    T.ApplyKeepsInv(s.pool, e);
    var q := T.Apply(s.pool, e);
    if !e.Producing? && |q.taken| > |s.pool.taken| {
      assert O.Enabled(s.net, O.Take);
    }
  }

  lemma {:induction false} RunKeepsInv(p: T.Pool, events: seq<Event>)
    requires T.Created(p)
    ensures SystemInv(Run(System(O.EMPTY, p), events))
    decreases |events|
  {
    if events == [] {
      T.CreatedInv(p);
    } else {
      RunKeepsInv(p, events[..|events| - 1]);
      var s := Run(System(O.EMPTY, p), events[..|events| - 1]);
      match events[|events| - 1]
      case OnNet(e) => OnNetKeepsInv(s, e);
      case OnPool(e) => OnPoolKeepsInv(s, e);
    }
  }

  /** What the pipeline does in such a run is a run of the pipeline. */
  lemma {:induction false} NetIsRun(p: T.Pool, events: seq<Event>) returns (steps: seq<O.Event>)
    ensures O.Run(O.EMPTY, steps) == Run(System(O.EMPTY, p), events).net
    decreases |events|
  {
    steps := [];
    if events != [] {
      steps := NetIsRun(p, events[..|events| - 1]);
      var s, t := Run(System(O.EMPTY, p), events[..|events| - 1]), Run(System(O.EMPTY, p), events);
      if t.net != s.net {
        var e := if events[|events| - 1].OnNet? then events[|events| - 1].e else O.Take;
        assert (steps + [e])[..|steps|] == steps;
        steps := steps + [e];
      }
    }
  }

  /** Cells from position i on point to the tasks from position i on. */
  lemma PointedSlice(cells: seq<T.Task>, added: seq<O.PoolTask>, i: nat, j: nat)
    requires |cells| == |added| && i <= j <= |cells|
    requires forall k :: 0 <= k < |cells| ==> cells[k] == Cell(k)
    ensures Map(cells[i..j], Pointed(added)) == added[i..j]
  {}

  lemma RingHoldsQueue(s: System)
    requires SystemInv(s)
    ensures Map(T.Contents(s.pool), Pointed(s.net.added)) == s.net.queue
    ensures Map(s.pool.taken, Pointed(s.net.added)) + s.net.queue == s.net.added
  {
    T.ContentsAre(s.pool);
    var n := |s.pool.taken|;
    PointedSlice(s.pool.added, s.net.added, 0, n);
    PointedSlice(s.pool.added, s.net.added, n, |s.net.added|);
    assert s.pool.added[0..n] == s.pool.taken && s.pool.added[n..|s.net.added|] == T.Contents(s.pool);
    assert s.net.added[0..n] + s.net.added[n..] == s.net.added;
  }

  /**
   Stream order through the ring. In every run the ring holds exactly the queued tasks, so never more of them
   than it has room for; and for every connection the packets of the tasks that workers have taken, then those
   in the ring, then the one in a worker's hands, then the unread ones are the packets sent.
   */
  lemma StreamThroughRing(p: T.Pool, events: seq<Event>, ev: nat)
    requires T.Created(p)
    ensures var s := Run(System(O.EMPTY, p), events);
            && T.RingInv(s.pool)
            && Map(T.Contents(s.pool), Pointed(s.net.added)) == s.net.queue && |s.net.queue| == s.pool.cur <= s.pool.queueMax
            && O.Delivered(Map(s.pool.taken, Pointed(s.net.added)), ev)
               + (O.Delivered(s.net.queue, ev) + (O.InHand(s.net.running, ev) + O.InboxOf(s.net, ev))) == O.SentOf(s.net, ev)
  {
    RunKeepsInv(p, events);
    var s := Run(System(O.EMPTY, p), events);
    var taken := Map(s.pool.taken, Pointed(s.net.added));
    RingHoldsQueue(s);
    var steps := NetIsRun(p, events);
    O.StreamOrder(steps, ev);
    CollectSplit(taken, s.net.queue, O.PacketOf(ev));
    AppendAssoc(O.Delivered(taken, ev), O.Delivered(s.net.queue, ev), O.InHand(s.net.running, ev) + O.InboxOf(s.net, ev));
  }
}
