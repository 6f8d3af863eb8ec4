/**
 The receive pipeline. Every connection has an event record that epoll reports once and then
 disarms (EPOLLONESHOT); the event loop queues a recv_task for it, a worker runs that task and
 either queues the packet and re-arms the record, or takes the record apart.
 Runs interleave the event loop, any number of workers and the peers, step by step.
 */
module OneShot {
  import opened Sequences

  type Content = seq<int>

  /** A task in the pool. Buffer_Deal is told only the descriptor; `ev` is kept as history. */
  datatype PoolTask = RecvTask(ev: nat) | BufferDeal(ev: nat, fd: int, content: Content)

  /** How far a worker is in the task it runs. */
  datatype Phase =
    | Reading(ev: nat)
    | Holding(ev: nat, content: Content)  // has the packet, about to queue Buffer_Deal
    | Rearming(ev: nat)                   // about to eventadd
    | Unwatching(ev: nat)                 // read failed: about to eventdel,
    | Closing(ev: nat)                    // then close the descriptor,
    | Erasing(ev: nat)                    // then erase the map entry,
    | Deleting(ev: nat)                   // then delete the record
    | Dealing(ev: nat, content: Content)

  datatype Net = Net(
    live: set<nat>,               // records allocated and not yet deleted
    next: nat,                    // the record the next accept will allocate
    fdOf: map<nat, int>,
    openFds: set<int>,
    byFd: map<int, nat>,          // m_mapSockfdToEvent
    armed: set<nat>,
    stuck: set<nat>,              // disarmed by a report that the event loop had no use for
    batch: seq<nat>,              // reported by epoll_wait, not yet handed to the pool
    queue: seq<PoolTask>,
    running: seq<Phase>,
    added: seq<PoolTask>,         // every task ever queued, in order
    inbox: map<nat, seq<Content>>,  // packets not yet read
    sent: map<nat, seq<Content>>)   // packets the peer ever sent

  const EMPTY := Net({}, 0, map[], {}, map[], {}, {}, [], [], [], [], map[], map[])

  // ---------------------------------------------------------------- the steps

  datatype Event =
    | Accept(fd: int)
    | PeerSends(ev: nat, content: Content)
    | Report(ev: nat)
    | Dispatch
    | Ignore                     // the event loop passes over a report without EPOLLIN
    | Take
    | Work(i: nat, readFails: bool)

  predicate Enabled(s: Net, e: Event) {
    match e
    case Accept(fd) => fd !in s.openFds
    case PeerSends(ev, _) => ev in s.inbox && ev in s.sent
    case Report(ev) => ev in s.armed
    case Dispatch => s.batch != []
    case Ignore => s.batch != []
    case Take => s.queue != []
    case Work(i, _) => i < |s.running| && s.running[i].ev in s.inbox && s.running[i].ev in s.fdOf
  }

  function Queued(s: Net, t: PoolTask): Net {
    s.(queue := s.queue + [t], added := s.added + [t])
  }

  /** One step of the worker that is at running[i]. */
  function WorkStep(s: Net, i: nat, readFails: bool): Net
    requires Enabled(s, Work(i, readFails))
  {
    match s.running[i]
    case Reading(ev) =>
      if readFails || s.inbox[ev] == [] then s.(running := s.running[i := Unwatching(ev)])
      else s.(inbox := s.inbox[ev := s.inbox[ev][1..]], running := s.running[i := Holding(ev, s.inbox[ev][0])])
    case Holding(ev, content) =>
      Queued(s, BufferDeal(ev, s.fdOf[ev], content)).(running := s.running[i := Rearming(ev)])
    case Rearming(ev) => s.(armed := s.armed + {ev}, running := Without(s.running, i))
    case Unwatching(ev) => s.(armed := s.armed - {ev}, running := s.running[i := Closing(ev)])
    case Closing(ev) => s.(openFds := s.openFds - {s.fdOf[ev]}, running := s.running[i := Erasing(ev)])
    case Erasing(ev) => s.(byFd := s.byFd - {s.fdOf[ev]}, running := s.running[i := Deleting(ev)])
    case Deleting(ev) => s.(live := s.live - {ev}, running := Without(s.running, i))
    case Dealing(_, _) => s.(running := Without(s.running, i))
  }

  function Apply(s: Net, e: Event): Net {
    if !Enabled(s, e) then s
    else
      match e
      case Accept(fd) =>
        s.(live := s.live + {s.next}, next := s.next + 1,
           fdOf := s.fdOf[s.next := fd], openFds := s.openFds + {fd}, byFd := s.byFd[fd := s.next],
           armed := s.armed + {s.next}, inbox := s.inbox[s.next := []], sent := s.sent[s.next := []])
      case PeerSends(ev, content) =>
        s.(inbox := s.inbox[ev := s.inbox[ev] + [content]], sent := s.sent[ev := s.sent[ev] + [content]])
      case Report(ev) => s.(armed := s.armed - {ev}, batch := s.batch + [ev])
      case Dispatch => Queued(s, RecvTask(s.batch[0])).(batch := s.batch[1..])
      case Ignore => s.(batch := s.batch[1..], stuck := s.stuck + {s.batch[0]})
      case Take =>
        s.(queue := s.queue[1..],
           running := s.running + [match s.queue[0]
                                   case RecvTask(ev) => Reading(ev)
                                   case BufferDeal(ev, _, content) => Dealing(ev, content)])
      case Work(i, readFails) => WorkStep(s, i, readFails)
  }

  function Run(s: Net, events: seq<Event>): Net {
    if events == [] then s else Apply(Run(s, events[..|events| - 1]), events[|events| - 1])
  }

  // ---------------------------------------------------------------- tokens

  function Holds(ev: nat): Phase -> bool {
    (p: Phase) => !p.Dealing? && p.ev == ev
  }

  function Awaits(ev: nat): PoolTask -> bool {
    (t: PoolTask) => t.RecvTask? && t.ev == ev
  }

  function Equals(ev: nat): nat -> bool {
    x => x == ev
  }

  /** How often a record is claimed: armed in epoll, reported, queued, or held by a running recv_task. */
  function Claims(s: Net, ev: nat): nat {
    (if ev in s.armed then 1 else 0) + Count(s.batch, Equals(ev)) + Count(s.queue, Awaits(ev)) + Count(s.running, Holds(ev))
  }

  /** One claim on a live record, none on a record that is stuck or deleted. */
  function Due(s: Net, ev: nat): nat {
    if ev in s.live && ev !in s.stuck then 1 else 0
  }

  ghost predicate TokenInv(s: Net) {
    && (forall ev :: Claims(s, ev) == Due(s, ev))
    && (forall ev :: ev in s.live ==> ev < s.next)
    && s.stuck <= s.live
  }

  /** What one worker step does to the claim of that worker. */
  lemma OwnClaims(s: Net, i: nat, readFails: bool, ev: nat)
    requires Enabled(s, Work(i, readFails)) && Holds(ev)(s.running[i])
    requires Claims(s, ev) == 1 == Due(s, ev)
    ensures var t := WorkStep(s, i, readFails); Claims(t, ev) == Due(t, ev)
  {
    var t, p := WorkStep(s, i, readFails), s.running[i];
    CountAt(s.running, i, Holds(ev));
    if p.Holding? {
      CountAppend(s.queue, BufferDeal(p.ev, s.fdOf[p.ev], p.content), Awaits(ev));
    }
    if |t.running| == |s.running| {
      CountUpdate(s.running, i, t.running[i], Holds(ev));
    }
  }

  lemma OtherClaims(s: Net, i: nat, readFails: bool, ev: nat)
    requires Enabled(s, Work(i, readFails)) && !Holds(ev)(s.running[i])
    ensures var t := WorkStep(s, i, readFails);
            Claims(t, ev) == Claims(s, ev) && Due(t, ev) == Due(s, ev)
  {
    var t, p := WorkStep(s, i, readFails), s.running[i];
    CountAt(s.running, i, Holds(ev));
    if p.Holding? {
      CountAppend(s.queue, BufferDeal(p.ev, s.fdOf[p.ev], p.content), Awaits(ev));
    }
    if |t.running| == |s.running| {
      CountUpdate(s.running, i, t.running[i], Holds(ev));
    }
  }

  lemma ApplyClaims(s: Net, e: Event, ev: nat)
    requires TokenInv(s)
    ensures var t := Apply(s, e); Claims(t, ev) == Due(t, ev)
  {
    assert Claims(s, ev) == Due(s, ev);
    if Enabled(s, e) {
      match e
      case Accept(fd) =>
      case PeerSends(_, _) =>
      case Report(rec) =>
        CountAppend(s.batch, rec, Equals(ev));
      case Dispatch =>
        CountAppend(s.queue, RecvTask(s.batch[0]), Awaits(ev));
      case Ignore =>
      case Take =>
        CountAppend(s.running, Apply(s, e).running[|s.running|], Holds(ev));
      case Work(i, readFails) =>
        if Holds(ev)(s.running[i]) {
          CountAt(s.running, i, Holds(ev));
          OwnClaims(s, i, readFails, ev);
        } else {
          OtherClaims(s, i, readFails, ev);
        }
    }
  }

  lemma ApplyKeepsTokens(s: Net, e: Event)
    requires TokenInv(s)
    ensures TokenInv(Apply(s, e))
  {
    var t := Apply(s, e);
    forall ev
      ensures Claims(t, ev) == Due(t, ev)
    {
      ApplyClaims(s, e, ev);
    }
    ApplyKeepsLive(s, e);
  }

  lemma ApplyKeepsLive(s: Net, e: Event)
    requires TokenInv(s)
    ensures forall ev :: ev in Apply(s, e).live ==> ev < Apply(s, e).next
    ensures Apply(s, e).stuck <= Apply(s, e).live
  {
    if Enabled(s, e) && e.Ignore? {
      assert Claims(s, s.batch[0]) == Due(s, s.batch[0]);
    }
    if Enabled(s, e) && e.Work? {
      var ev := s.running[e.i].ev;
      CountAt(s.running, e.i, Holds(ev));
      assert Claims(s, ev) == Due(s, ev);
    }
  }

  lemma {:induction false} RunKeepsTokens(events: seq<Event>)
    ensures TokenInv(Run(EMPTY, events))
    decreases |events|
  {
    if events != [] {
      RunKeepsTokens(events[..|events| - 1]);
      ApplyKeepsTokens(Run(EMPTY, events[..|events| - 1]), events[|events| - 1]);
    }
  }

  /**
   One-shot discipline in every reachable state: a record is claimed at most once over all of epoll,
   the reported batch, the pool queue and the running tasks; while it is armed no recv_task for it
   is queued or running; and whatever is claimed has not been deleted. The live records that nobody has a
   claim on are exactly those whose report the event loop has passed over.
   */
  lemma OneClaim(events: seq<Event>, ev: nat)
    ensures var s := Run(EMPTY, events);
            && Claims(s, ev) <= 1
            && (Claims(s, ev) == 1 <==> ev in s.live && ev !in s.stuck)
            && (ev in s.armed ==> Count(s.queue, Awaits(ev)) == Count(s.running, Holds(ev)) == 0)
            && (ev in s.stuck ==> ev in s.live)
  {
    RunKeepsTokens(events);
    assert Claims(Run(EMPTY, events), ev) == Due(Run(EMPTY, events), ev);
  }

  // ---------------------------------------------------------------- descriptors

  /** Packets are dealt with under the descriptor of the connection that they came from. */
  ghost predicate DealsInv(s: Net) {
    forall t :: t in s.added && t.BufferDeal? ==> t.ev in s.fdOf && t.fd == s.fdOf[t.ev]
  }

  lemma ApplyKeepsDeals(s: Net, e: Event)
    requires DealsInv(s) && forall ev :: ev in s.fdOf ==> ev < s.next
    ensures DealsInv(Apply(s, e))
    ensures forall ev :: ev in s.fdOf ==> ev in Apply(s, e).fdOf && Apply(s, e).fdOf[ev] == s.fdOf[ev]
    ensures forall ev :: ev in Apply(s, e).fdOf ==> ev < Apply(s, e).next
  {}

  /** In every run, each packet that is queued goes under the descriptor that its connection was accepted with. */
  lemma {:induction false} DealtUnderOwnFd(events: seq<Event>)
    ensures DealsInv(Run(EMPTY, events)) && forall ev :: ev in Run(EMPTY, events).fdOf ==> ev < Run(EMPTY, events).next
    decreases |events|
  {
    if events != [] {
      DealtUnderOwnFd(events[..|events| - 1]);
      ApplyKeepsDeals(Run(EMPTY, events[..|events| - 1]), events[|events| - 1]);
    }
  }

  /** The descriptor of a record is the one that the accept which made it returned. */
  lemma {:induction false} FdIsAccepted(events: seq<Event>, ev: nat)
    requires ev in Run(EMPTY, events).fdOf
    ensures exists k :: 0 <= k < |events| && events[k] == Accept(Run(EMPTY, events).fdOf[ev])
                        && Enabled(Run(EMPTY, events[..k]), events[k]) && Run(EMPTY, events[..k]).next == ev
    decreases |events|
  {
    var before := events[..|events| - 1];
    var s, e := Run(EMPTY, before), events[|events| - 1];
    DealtUnderOwnFd(before);
    ApplyKeepsDeals(s, e);
    if ev in s.fdOf {
      FdIsAccepted(before, ev);
      var k :| 0 <= k < |before| && before[k] == Accept(s.fdOf[ev]) && Enabled(Run(EMPTY, before[..k]), before[k]) && Run(EMPTY, before[..k]).next == ev;
      assert before[..k] == events[..k];
    } else {
      OnlyAcceptsMakeRecords(s, e, ev);
    }
  }

  lemma OnlyAcceptsMakeRecords(s: Net, e: Event, ev: nat)
    requires ev in Apply(s, e).fdOf && ev !in s.fdOf
    ensures e == Accept(Apply(s, e).fdOf[ev]) && Enabled(s, e) && s.next == ev
  {}

  // ---------------------------------------------------------------- stream order

  function PacketOf(ev: nat): PoolTask -> seq<Content> {
    (t: PoolTask) => if t.BufferDeal? && t.ev == ev then [t.content] else []
  }

  function PacketHeld(ev: nat): Phase -> seq<Content> {
    (p: Phase) => if p.Holding? && p.ev == ev then [p.content] else []
  }

  /** The packets of one connection among tasks, in order. */
  function Delivered(tasks: seq<PoolTask>, ev: nat): seq<Content> {
    Collect(tasks, PacketOf(ev))
  }

  /** The packet of a connection that a running recv_task has read and not yet queued. */
  function InHand(running: seq<Phase>, ev: nat): seq<Content> {
    Collect(running, PacketHeld(ev))
  }

  lemma NothingInHand(running: seq<Phase>, ev: nat)
    requires Count(running, Holds(ev)) == 0
    ensures InHand(running, ev) == []
  {}

  /** With one claim on a record, its packet in hand is that of the claimant. */
  lemma InHandOf(running: seq<Phase>, i: nat, p: Phase, ev: nat)
    requires i < |running| && Holds(ev)(running[i]) && Count(running, Holds(ev)) <= 1
    ensures InHand(running, ev) == PacketHeld(ev)(running[i])
    ensures InHand(Without(running, i), ev) == []
    ensures InHand(running[i := p], ev) == PacketHeld(ev)(p)
  {
    CountAt(running, i, Holds(ev));
    NothingInHand(Without(running, i), ev);
    CollectAt(running, i, PacketHeld(ev));
    CollectUpdate(running, i, p, PacketHeld(ev));
    assert [] + (PacketHeld(ev)(p) + []) == PacketHeld(ev)(p);
  }

  /** A step of a task for another record leaves it alone. */
  lemma InHandOther(running: seq<Phase>, i: nat, p: Phase, ev: nat)
    requires i < |running| && PacketHeld(ev)(running[i]) == [] == PacketHeld(ev)(p)
    ensures InHand(running[i := p], ev) == InHand(running, ev) == InHand(Without(running, i), ev)
  {
    CollectAt(running, i, PacketHeld(ev));
    CollectUpdate(running, i, p, PacketHeld(ev));
    var a, b := InHand(running[..i], ev), InHand(running[i + 1..], ev);
    assert a + ([] + b) == a + b;
  }

  /** What was queued, what is in hand and what is still unread is what the peer sent. */
  ghost predicate StreamInv(s: Net) {
    && s.inbox.Keys == s.sent.Keys == s.fdOf.Keys
    && (forall ev :: ev in s.sent ==> ev < s.next)
    && (forall ev :: StreamOf(s, ev) == SentOf(s, ev))
  }

  function SentOf(s: Net, ev: nat): seq<Content> {
    if ev in s.sent then s.sent[ev] else []
  }

  function InboxOf(s: Net, ev: nat): seq<Content> {
    if ev in s.inbox then s.inbox[ev] else []
  }

  function StreamOf(s: Net, ev: nat): seq<Content> {
    Delivered(s.added, ev) + (InHand(s.running, ev) + InboxOf(s, ev))
  }

  lemma QueuedPacket(tasks: seq<PoolTask>, t: PoolTask, ev: nat)
    ensures Delivered(tasks + [t], ev) == Delivered(tasks, ev) + PacketOf(ev)(t)
    ensures PacketOf(ev)(t) == [] ==> Delivered(tasks + [t], ev) == Delivered(tasks, ev)
  {
    CollectAppend(tasks, t, PacketOf(ev));
    assert Delivered(tasks, ev) + [] == Delivered(tasks, ev);
  }

  /** Reading moves a packet from the inbox to the hand, queueing moves it on. */
  lemma MovePacket(delivered: seq<Content>, c: Content, rest: seq<Content>)
    ensures delivered + ([] + ([c] + rest)) == delivered + ([c] + rest) == (delivered + [c]) + ([] + rest)
  {}

  lemma OwnWorkStream(s: Net, i: nat, readFails: bool, ev: nat)
    requires TokenInv(s) && Enabled(s, Work(i, readFails)) && Holds(ev)(s.running[i])
    ensures StreamOf(WorkStep(s, i, readFails), ev) == StreamOf(s, ev)
  {
    var p := s.running[i];
    assert Claims(s, ev) <= 1;
    var t := WorkStep(s, i, readFails);
    InHandOf(s.running, i, if |t.running| == |s.running| then t.running[i] else p, ev);
    match p
    case Reading(_) =>
      if !readFails && s.inbox[ev] != [] {
        var c, rest := s.inbox[ev][0], s.inbox[ev][1..];
        MovePacket(Delivered(s.added, ev), c, rest);
        assert s.inbox[ev] == [c] + rest;
      }
    case Holding(_, content) =>
      QueuedPacket(s.added, BufferDeal(ev, s.fdOf[ev], content), ev);
      MovePacket(Delivered(s.added, ev), content, s.inbox[ev]);
    case _ =>
  }

  lemma OtherWorkStream(s: Net, i: nat, readFails: bool, ev: nat)
    requires Enabled(s, Work(i, readFails)) && !Holds(ev)(s.running[i])
    ensures StreamOf(WorkStep(s, i, readFails), ev) == StreamOf(s, ev)
  {
    var t, p := WorkStep(s, i, readFails), s.running[i];
    InHandOther(s.running, i, if |t.running| == |s.running| then t.running[i] else p, ev);
    if p.Holding? {
      QueuedPacket(s.added, BufferDeal(p.ev, s.fdOf[p.ev], p.content), ev);
    }
  }

  lemma SendStream(s: Net, ev: nat, content: Content)
    requires ev in s.inbox && ev in s.sent
    ensures StreamOf(Apply(s, PeerSends(ev, content)), ev) == StreamOf(s, ev) + [content]
  {}

  lemma QueueStream(s: Net, e: Event, ev: nat)
    requires Enabled(s, e) && (e.Dispatch? || e.Take?)
    ensures StreamOf(Apply(s, e), ev) == StreamOf(s, ev)
  {
    if e.Dispatch? {
      QueuedPacket(s.added, RecvTask(s.batch[0]), ev);
    } else {
      CollectAppend(s.running, Apply(s, e).running[|s.running|], PacketHeld(ev));
      assert InHand(s.running, ev) + [] == InHand(s.running, ev);
    }
  }

  lemma ApplyStream(s: Net, e: Event, ev: nat)
    requires TokenInv(s) && StreamInv(s) && Enabled(s, e)
    ensures StreamOf(Apply(s, e), ev) == if e.PeerSends? && e.ev == ev then StreamOf(s, ev) + [e.content] else StreamOf(s, ev)
  {
    match e
    case Accept(fd) =>
    case PeerSends(rec, content) =>
      if rec == ev {
        SendStream(s, ev, content);
      }
    case Report(_) =>
    case Dispatch => QueueStream(s, e, ev);
    case Ignore =>
    case Take => QueueStream(s, e, ev);
    case Work(i, readFails) =>
      if Holds(ev)(s.running[i]) {
        OwnWorkStream(s, i, readFails, ev);
      } else {
        OtherWorkStream(s, i, readFails, ev);
      }
  }

  /** Which connections there are, and what their peers have sent. */
  lemma ApplySent(s: Net, e: Event, ev: nat)
    requires Enabled(s, e) && (forall k :: k in s.sent ==> k < s.next)
    ensures SentOf(Apply(s, e), ev) == if e.PeerSends? && e.ev == ev then SentOf(s, ev) + [e.content] else SentOf(s, ev)
  {}

  lemma ApplyKeepsKeys(s: Net, e: Event)
    requires s.inbox.Keys == s.sent.Keys == s.fdOf.Keys && (forall k :: k in s.sent ==> k < s.next)
    ensures var t := Apply(s, e);
            t.inbox.Keys == t.sent.Keys == t.fdOf.Keys && (forall k :: k in t.sent ==> k < t.next)
  {
    if e.Work? && Enabled(s, e) {
      assert WorkStep(s, e.i, e.readFails).inbox.Keys == s.inbox.Keys;
    }
  }

  lemma ApplyKeepsStream(s: Net, e: Event)
    requires TokenInv(s) && StreamInv(s)
    ensures StreamInv(Apply(s, e))
  {
    if Enabled(s, e) {
      var t := Apply(s, e);
      forall ev
        ensures StreamOf(t, ev) == SentOf(t, ev)
      {
        ApplyStream(s, e, ev);
        ApplySent(s, e, ev);
        assert StreamOf(s, ev) == SentOf(s, ev);
      }
      ApplyKeepsKeys(s, e);
    }
  }

  lemma {:induction false} RunKeepsStream(events: seq<Event>)
    ensures StreamInv(Run(EMPTY, events))
    decreases |events|
  {
    if events != [] {
      var before := events[..|events| - 1];
      RunKeepsTokens(before);
      RunKeepsStream(before);
      ApplyKeepsStream(Run(EMPTY, before), events[|events| - 1]);
    }
  }

  /**
   Stream order: in every reachable state and for every connection ever accepted, the packets handed
   to the pool, then the packet in a worker's hands, then the unread ones are the packets sent;
   nothing is in hand while the record is armed.
   */
  lemma StreamOrder(events: seq<Event>, ev: nat)
    ensures var s := Run(EMPTY, events);
            && Delivered(s.added, ev) + (InHand(s.running, ev) + InboxOf(s, ev)) == SentOf(s, ev)
            && Delivered(s.added, ev) <= SentOf(s, ev)
            && (ev in s.armed ==> InHand(s.running, ev) == [])
  {
    RunKeepsStream(events);
    OneClaim(events, ev);
    var s := Run(EMPTY, events);
    assert StreamOf(s, ev) == SentOf(s, ev);
    if ev in s.armed {
      NothingInHand(s.running, ev);
    }
  }
}
