/**
 What stream order does not say: that packets get anywhere. As long as nothing has taken a connection apart,
 everything that its peer has sent can still be delivered.
 */
module OneShotProgress {
  import opened Sequences
  import opened OneShot

  ghost predicate Sound(s: Net) {
    TokenInv(s) && StreamInv(s)
  }

  /** The record is armed, reported, queued, or with a recv_task that has not failed. */
  ghost predicate OnItsWay(s: Net, ev: nat) {
    || ev in s.armed || ev in s.batch || RecvTask(ev) in s.queue
    || exists i :: 0 <= i < |s.running| && Works(s.running[i], ev)
  }

  predicate Works(p: Phase, ev: nat) {
    p.ev == ev && (p.Reading? || p.Holding? || p.Rearming?)
  }

  /** The steps lead from one state to the other, and neither lose nor add a packet of this connection. */
  ghost predicate Leads(s: Net, events: seq<Event>, t: Net, ev: nat) {
    Run(s, events) == t && Sound(t) && SentOf(t, ev) == SentOf(s, ev)
  }

  lemma Stay(s: Net, ev: nat)
    requires Sound(s)
    ensures Leads(s, [], s, ev)
  {}

  lemma Then(s: Net, events: seq<Event>, t: Net, e: Event, ev: nat)
    requires Leads(s, events, t, ev) && (e.Dispatch? || e.Take? || e.Report? || e.Work?)
    ensures Leads(s, events + [e], Apply(t, e), ev)
  {
    assert (events + [e])[..|events|] == events;
    ApplyKeepsTokens(t, e);
    ApplyKeepsStream(t, e);
    if Enabled(t, e) {
      ApplySent(t, e, ev);
    }
  }

  lemma {:induction false} RunAppend(s: Net, a: seq<Event>, b: seq<Event>)
    ensures Run(s, a + b) == Run(Run(s, a), b)
    decreases |b|
  {
    if b == [] {
      assert a + b == a;
    } else {
      var front, last := b[..|b| - 1], b[|b| - 1];
      assert ((a + front) + [last])[..|a + front|] == a + front && a + b == (a + front) + [last];
      RunAppend(s, a, front);
    }
  }

  lemma Chain(s: Net, a: seq<Event>, t: Net, b: seq<Event>, u: Net, ev: nat)
    requires Leads(s, a, t, ev) && Leads(t, b, u, ev)
    ensures Leads(s, a + b, u, ev)
  {
    RunAppend(s, a, b);
  }

  // ---------------------------------------------------------------- from epoll to a worker

  /** The reports before it are dispatched. */
  lemma {:induction false} ToQueue(s: Net, ev: nat, k: nat) returns (events: seq<Event>, t: Net)
    requires Sound(s) && k < |s.batch| && s.batch[k] == ev
    ensures Leads(s, events, t, ev) && RecvTask(ev) in t.queue && InboxOf(t, ev) == InboxOf(s, ev)
    decreases k
  {
    Stay(s, ev);
    Then(s, [], s, Dispatch, ev);
    events, t := [] + [Dispatch], Apply(s, Dispatch);
    if k == 0 {
      assert t.queue[|s.queue|] == RecvTask(ev);
    } else {
      var more, u := ToQueue(t, ev, k - 1);
      Chain(s, events, t, more, u, ev);
      events, t := events + more, u;
    }
  }

  /** The tasks before it are taken. */
  lemma {:induction false} ToWorker(s: Net, ev: nat, k: nat) returns (events: seq<Event>, t: Net, i: nat)
    requires Sound(s) && k < |s.queue| && s.queue[k] == RecvTask(ev)
    ensures Leads(s, events, t, ev) && i < |t.running| && t.running[i] == Reading(ev) && InboxOf(t, ev) == InboxOf(s, ev)
    decreases k
  {
    var u := OneTaken(s, ev);
    events, t, i := [] + [Take], u, |s.running|;
    if k > 0 {
      var more, v, j := ToWorker(u, ev, k - 1);
      Chain(s, events, u, more, v, ev);
      events, t, i := events + more, v, j;
    }
  }

  lemma OneTaken(s: Net, ev: nat) returns (t: Net)
    requires Sound(s) && s.queue != []
    ensures Leads(s, [] + [Take], t, ev) && t.queue == s.queue[1..] && InboxOf(t, ev) == InboxOf(s, ev) && |t.running| == |s.running| + 1
    ensures forall e :: s.queue[0] == RecvTask(e) ==> t.running[|s.running|] == Reading(e)
  {
    Stay(s, ev);
    Then(s, [], s, Take, ev);
    t := Apply(s, Take);
  }

  lemma FromBatch(s: Net, ev: nat) returns (events: seq<Event>, t: Net, i: nat)
    requires Sound(s) && ev in s.batch
    ensures Leads(s, events, t, ev) && i < |t.running| && t.running[i] == Reading(ev) && InboxOf(t, ev) == InboxOf(s, ev)
  {
    var k :| 0 <= k < |s.batch| && s.batch[k] == ev;
    var first, u := ToQueue(s, ev, k);
    var j :| 0 <= j < |u.queue| && u.queue[j] == RecvTask(ev);
    var second, v, l := ToWorker(u, ev, j);
    Chain(s, first, u, second, v, ev);
    events, t, i := first + second, v, l;
  }

  lemma FromArmed(s: Net, ev: nat) returns (events: seq<Event>, t: Net, i: nat)
    requires Sound(s) && ev in s.armed
    ensures Leads(s, events, t, ev) && i < |t.running| && t.running[i] == Reading(ev) && InboxOf(t, ev) == InboxOf(s, ev)
  {
    Stay(s, ev);
    Then(s, [], s, Report(ev), ev);
    var u := Apply(s, Report(ev));
    assert u.batch[|s.batch|] == ev;
    var more, v, j := FromBatch(u, ev);
    Chain(s, [] + [Report(ev)], u, more, v, ev);
    events, t, i := [] + [Report(ev)] + more, v, j;
  }

  // ---------------------------------------------------------------- from a worker back to epoll

  lemma OneWork(s: Net, i: nat, ev: nat) returns (t: Net)
    requires Sound(s) && i < |s.running| && s.running[i].ev == ev && ev in s.inbox
    ensures Leads(s, [] + [Work(i, false)], t, ev) && t == WorkStep(s, i, false)
  {
    Stay(s, ev);
    Then(s, [], s, Work(i, false), ev);
    t := Apply(s, Work(i, false));
  }

  /** The packet in hand is queued, and the record armed again. */
  lemma ToEpoll(s: Net, i: nat, ev: nat) returns (events: seq<Event>, t: Net)
    requires Sound(s) && i < |s.running| && s.running[i].ev == ev && ev in s.inbox && (s.running[i].Holding? || s.running[i].Rearming?)
    ensures Leads(s, events, t, ev) && ev in t.armed && InboxOf(t, ev) == InboxOf(s, ev)
  {
    events, t := [], s;
    Stay(s, ev);
    if s.running[i].Holding? {
      var u := OneWork(s, i, ev);
      events, t := [] + [Work(i, false)], u;
    }
    var v := OneWork(t, i, ev);
    Chain(s, events, t, [] + [Work(i, false)], v, ev);
    events, t := events + ([] + [Work(i, false)]), v;
  }

  /** One packet is read, queued, and the record armed again. */
  lemma OnePacket(s: Net, i: nat, ev: nat) returns (events: seq<Event>, t: Net)
    requires Sound(s) && i < |s.running| && s.running[i] == Reading(ev) && InboxOf(s, ev) != []
    ensures Leads(s, events, t, ev) && ev in t.armed && InboxOf(t, ev) == InboxOf(s, ev)[1..]
  {
    var u := OneWork(s, i, ev);
    var more, v := ToEpoll(u, i, ev);
    Chain(s, [] + [Work(i, false)], u, more, v, ev);
    events, t := [] + [Work(i, false)] + more, v;
  }

  // ---------------------------------------------------------------- a connection that is over

  /** A recv_task whose read fails, or finds the stream at its end, takes the connection apart completely. */
  lemma FailedIsTakenApart(s: Net, i: nat, ev: nat, readFails: bool)
    requires Sound(s) && i < |s.running| && s.running[i] == Reading(ev) && ev in s.inbox && (readFails || s.inbox[ev] == [])
    ensures var t := Apply(Apply(Apply(Apply(Apply(s, Work(i, readFails)), Work(i, readFails)), Work(i, readFails)), Work(i, readFails)), Work(i, readFails));
            && ev in s.fdOf && t.live == s.live - {ev} && t.openFds == s.openFds - {s.fdOf[ev]} && t.byFd == s.byFd - {s.fdOf[ev]}
            && ev !in t.armed && t.added == s.added && t.running == Without(s.running, i)
  {
    var e := Work(i, readFails);
    var s1 := Apply(s, e);
    assert s1 == s.(running := s.running[i := Unwatching(ev)]);
    var s2 := Apply(s1, e);
    assert s2.running == s.running[i := Closing(ev)];
    var s3 := Apply(s2, e);
    assert s3.running == s.running[i := Erasing(ev)];
    var s4 := Apply(s3, e);
    assert s4.running == s.running[i := Deleting(ev)];
    assert Without(s4.running, i) == Without(s.running, i);
  }

  // ---------------------------------------------------------------- everything

  /** An armed record: packet after packet, until none is left. */
  lemma {:induction false} DeliverFromArmed(s: Net, ev: nat) returns (events: seq<Event>, t: Net)
    requires Sound(s) && ev in s.armed
    ensures Leads(s, events, t, ev) && ev in t.armed && InboxOf(t, ev) == []
    decreases |InboxOf(s, ev)|
  {
    if InboxOf(s, ev) == [] {
      Stay(s, ev);
      events, t := [], s;
    } else {
      var a, u, i := FromArmed(s, ev);
      var b, v := OnePacket(u, i, ev);
      var c, x := DeliverFromArmed(v, ev);
      Chain(s, a, u, b, v, ev);
      Chain(s, a + b, v, c, x, ev);
      events, t := a + b + c, x;
    }
  }

  /** From anywhere on its way to an armed record, unless there is nothing to deliver any more. */
  lemma ToArmed(s: Net, ev: nat) returns (events: seq<Event>, t: Net)
    requires Sound(s) && OnItsWay(s, ev) && ev in s.inbox
    ensures Leads(s, events, t, ev) && (ev in t.armed || Delivered(t.added, ev) == SentOf(t, ev))
  {
    Stay(s, ev);
    events, t := [], s;
    assert Claims(s, ev) == Due(s, ev);
    assert StreamOf(s, ev) == SentOf(s, ev);
    if i :| 0 <= i < |s.running| && Works(s.running[i], ev) {
      if s.running[i].Reading? {
        events, t := FromReading(s, i, ev);
      } else {
        events, t := ToEpoll(s, i, ev);
      }
    } else if ev !in s.armed {
      var a, u, i;
      if ev in s.batch {
        a, u, i := FromBatch(s, ev);
      } else {
        var k :| 0 <= k < |s.queue| && s.queue[k] == RecvTask(ev);
        a, u, i := ToWorker(s, ev, k);
      }
      var b, v := FromReading(u, i, ev);
      Chain(s, a, u, b, v, ev);
      events, t := a + b, v;
    }
  }

  lemma FromReading(s: Net, i: nat, ev: nat) returns (events: seq<Event>, t: Net)
    requires Sound(s) && i < |s.running| && s.running[i] == Reading(ev)
    ensures Leads(s, events, t, ev) && (ev in t.armed || Delivered(t.added, ev) == SentOf(t, ev))
  {
    if InboxOf(s, ev) == [] {
      Stay(s, ev);
      events, t := [], s;
      assert Claims(s, ev) == Due(s, ev) && StreamOf(s, ev) == SentOf(s, ev);
      InHandOf(s.running, i, Reading(ev), ev);
    } else {
      events, t := OnePacket(s, i, ev);
    }
  }

  /**
   In every reachable state, whatever else is going on: if the record of a connection is on its way between
   epoll and a recv_task that has not failed, some continuation delivers all that its peer has sent.
   */
  lemma EverythingCanBeDelivered(events: seq<Event>, ev: nat) returns (more: seq<Event>)
    requires OnItsWay(Run(EMPTY, events), ev) && ev in Run(EMPTY, events).inbox
    ensures var s, t := Run(EMPTY, events), Run(EMPTY, events + more);
            SentOf(t, ev) == SentOf(s, ev) && Delivered(t.added, ev) == SentOf(t, ev)
  {
    RunKeepsTokens(events);
    RunKeepsStream(events);
    var s := Run(EMPTY, events);
    var a, u := ToArmed(s, ev);
    more := a;
    if Delivered(u.added, ev) != SentOf(u, ev) {
      var b, v := DeliverFromArmed(u, ev);
      Chain(s, a, u, b, v, ev);
      more := a + b;
      assert Claims(v, ev) == Due(v, ev) && StreamOf(v, ev) == SentOf(v, ev);
      NothingInHand(v.running, ev);
    }
    RunAppend(EMPTY, events, more);
  }
}
