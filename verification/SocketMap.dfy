/**
 The map from descriptors to event records. recv_task closes the descriptor before it erases the map
 entry, and an accept that is given the descriptor in between loses the entry it has just made.
 */
module SocketMap {
  import opened OneShot

  /** The connection has a record whose descriptor is open, yet the map does not lead to it. */
  ghost predicate LostEntry(s: Net, ev: nat) {
    ev in s.live && ev in s.fdOf && s.fdOf[ev] in s.openFds && s.fdOf[ev] !in s.byFd
  }

  /** Some recv_task has closed the descriptor and has yet to erase its entry. */
  predicate Erased(s: Net, fd: int) {
    exists i :: 0 <= i < |s.running| && EraserAt(s, i, fd)
  }

  predicate EraserAt(s: Net, i: nat, fd: int)
    requires i < |s.running|
  {
    s.running[i].Erasing? && s.running[i].ev in s.fdOf && s.fdOf[s.running[i].ev] == fd
  }

  /** No accept of the run is given a descriptor whose entry is about to be erased. */
  predicate Careful(s: Net, events: seq<Event>) {
    events == []
    || var before, e := events[..|events| - 1], events[|events| - 1];
       Careful(s, before) && (e.Accept? ==> !Erased(Run(s, before), e.fd))
  }

  ghost predicate Known(s: Net) {
    forall ev: nat :: ev < s.next ==> ev in s.fdOf
  }

  /** Every open descriptor has an entry, and nobody is about to erase it. */
  ghost predicate EntriesInv(s: Net) {
    && TokenInv(s) && StreamInv(s) && Known(s)
    && s.openFds <= s.byFd.Keys
    && (forall fd :: fd in s.openFds ==> !Erased(s, fd))
  }

  /** What a running task holds has been accepted. */
  lemma RunningIsKnown(s: Net, i: nat)
    requires EntriesInv(s) && i < |s.running| && !s.running[i].Dealing?
    ensures s.running[i].ev < s.next && s.running[i].ev in s.fdOf && s.running[i].ev in s.inbox
  {
    var ev := s.running[i].ev;
    Sequences.CountAt(s.running, i, Holds(ev));
    assert Claims(s, ev) == Due(s, ev);
  }

  lemma EraserBeforeWork(s: Net, i: nat, readFails: bool, fd: int)
    requires Enabled(s, Work(i, readFails)) && Erased(WorkStep(s, i, readFails), fd)
    ensures Erased(s, fd) || fd !in WorkStep(s, i, readFails).openFds
  {
    var t := WorkStep(s, i, readFails);
    var j :| 0 <= j < |t.running| && EraserAt(t, j, fd);
    var k := if |t.running| == |s.running| || j < i then j else j + 1;
    if k != i {
      assert t.running[j] == s.running[k];
      assert EraserAt(s, k, fd);
    }
  }

  /** Erasers come from erasers, or from a task that closes the descriptor in this very step. */
  lemma EraserBefore(s: Net, e: Event, fd: int)
    requires EntriesInv(s) && Enabled(s, e) && Erased(Apply(s, e), fd)
    ensures Erased(s, fd) || fd !in Apply(s, e).openFds
  {
    if e.Work? {
      EraserBeforeWork(s, e.i, e.readFails, fd);
    } else {
      var t := Apply(s, e);
      var j :| 0 <= j < |t.running| && EraserAt(t, j, fd);
      assert j < |s.running| && s.running[j] == t.running[j];
      if e.Accept? {
        RunningIsKnown(s, j);
      }
      assert EraserAt(s, j, fd);
    }
  }

  lemma ApplyKeepsKnown(s: Net, e: Event)
    requires Known(s)
    ensures Known(Apply(s, e))
  {}

  /** Only an eraser takes an entry away, and it erases that of a closed descriptor. */
  lemma ApplyKeepsEntry(s: Net, e: Event, fd: int)
    requires EntriesInv(s) && Enabled(s, e) && fd in Apply(s, e).openFds
    ensures fd in Apply(s, e).byFd
  {
    if fd in s.openFds {
      assert !Erased(s, fd);
      if e.Work? && s.running[e.i].Erasing? && fd == s.fdOf[s.running[e.i].ev] {
        assert EraserAt(s, e.i, fd);
      }
    }
  }

  lemma ApplyKeepsOpen(s: Net, e: Event, fd: int)
    requires EntriesInv(s) && Enabled(s, e) && (e.Accept? ==> !Erased(s, e.fd)) && fd in Apply(s, e).openFds
    ensures !Erased(Apply(s, e), fd)
  {
    if Erased(Apply(s, e), fd) {
      EraserBefore(s, e, fd);
    }
  }

  lemma ApplyKeepsEntries(s: Net, e: Event)
    requires EntriesInv(s) && (e.Accept? ==> !Erased(s, e.fd))
    ensures EntriesInv(Apply(s, e))
  {
    ApplyKeepsTokens(s, e);
    ApplyKeepsStream(s, e);
    ApplyKeepsKnown(s, e);
    var t := Apply(s, e);
    if Enabled(s, e) {
      forall fd | fd in t.openFds
        ensures fd in t.byFd.Keys
      {
        ApplyKeepsEntry(s, e, fd);
      }
      forall fd | fd in t.openFds
        ensures !Erased(t, fd)
      {
        ApplyKeepsOpen(s, e, fd);
      }
    }
  }

  lemma {:induction false} CarefulKeepsEntries(s: Net, events: seq<Event>)
    requires EntriesInv(s) && Careful(s, events)
    ensures EntriesInv(Run(s, events))
    decreases |events|
  {
    if events != [] {
      CarefulKeepsEntries(s, events[..|events| - 1]);
      ApplyKeepsEntries(Run(s, events[..|events| - 1]), events[|events| - 1]);
    }
  }

  /** From here on careful accepts never lose an entry. */
  ghost predicate KeepsEntries(s: Net) {
    forall more, ev :: Careful(s, more) ==> !LostEntry(Run(s, more), ev)
  }

  lemma SoundKeepsEntries(s: Net)
    requires EntriesInv(s)
    ensures KeepsEntries(s)
  {
    forall more, ev | Careful(s, more)
      ensures !LostEntry(Run(s, more), ev)
    {
      CarefulKeepsEntries(s, more);
    }
  }

  lemma OneStepLoses(s: Net, i: nat, ev: nat)
    requires LostEntry(Apply(s, Work(i, false)), ev)
    ensures !KeepsEntries(s)
  {
    var more := [Work(i, false)];
    assert more[..0] == [] && Run(s, []) == s && Careful(s, []);
    assert Careful(s, more) && LostEntry(Run(s, more), ev);
  }

  /**
   An accept after a careful run is safe exactly if the entry of its descriptor is not about to be
   erased: then every open descriptor keeps its entry as long as later accepts are careful too;
   otherwise one step of the eraser loses the new connection's entry.
   */
  lemma AcceptSafeIff(events: seq<Event>, fd: int)
    requires Careful(EMPTY, events) && fd !in Run(EMPTY, events).openFds
    ensures var s := Run(EMPTY, events);
            !Erased(s, fd) <==> KeepsEntries(Apply(s, Accept(fd)))
  {
    assert EntriesInv(EMPTY);
    CarefulKeepsEntries(EMPTY, events);
    var s := Run(EMPTY, events);
    if !Erased(s, fd) {
      ApplyKeepsEntries(s, Accept(fd));
      SoundKeepsEntries(Apply(s, Accept(fd)));
    } else {
      var i := EraserLoses(s, fd);
      OneStepLoses(Apply(s, Accept(fd)), i, s.next);
    }
  }

  lemma EraserLoses(s: Net, fd: int) returns (i: nat)
    requires EntriesInv(s) && Erased(s, fd) && fd !in s.openFds
    ensures LostEntry(Apply(Apply(s, Accept(fd)), Work(i, false)), s.next)
  {
    i :| 0 <= i < |s.running| && EraserAt(s, i, fd);
    RunningIsKnown(s, i);
  }

  /** And this does happen: one connection whose peer has gone, and the next one on its descriptor. */
  lemma ReuseLosesMapEntry()
    ensures exists events :: LostEntry(Run(EMPTY, events), 1)
  {
    var es, s := FailingTask();
    var s1 := Apply(s, Accept(5));
    var s2 := Apply(s1, Work(0, false));
    assert s1.running == [Erasing(0)] && s1.byFd == map[5 := 1] && s1.fdOf == map[0 := 5, 1 := 5] && s1.inbox.Keys == {0, 1};
    assert (es + [Accept(5)])[..|es|] == es;
    assert (es + [Accept(5)] + [Work(0, false)])[..|es| + 1] == es + [Accept(5)];
    assert LostEntry(Run(EMPTY, es + [Accept(5)] + [Work(0, false)]), 1);
  }

  /** One connection whose peer has gone, up to the point where its descriptor is closed. */
  lemma FailingTask() returns (es: seq<Event>, s: Net)
    ensures s == Run(EMPTY, es) && s.running == [Erasing(0)] && s.next == 1 && s.live == {0}
    ensures s.openFds == {} && s.fdOf == map[0 := 5] && s.inbox == map[0 := []]
    ensures s.byFd == map[5 := 0]
  {
    es := [];
    s := EMPTY;
    var todo := [Accept(5), Report(0), Dispatch, Take, Work(0, true), Work(0, false), Work(0, false)];
    var n := 0;
    while n < 7
      invariant 0 <= n <= 7 && s == Run(EMPTY, es)
      invariant n == 0 ==> s == EMPTY
      invariant n > 0 ==> s.live == {0} && s.next == 1 && s.fdOf == map[0 := 5] && s.inbox == map[0 := []] && s.byFd == map[5 := 0]
      invariant s.openFds == if 0 < n < 7 then {5} else {}
      invariant n == 1 ==> s.armed == {0}
      invariant s.batch == if n == 2 then [0] else []
      invariant s.queue == if n == 3 then [RecvTask(0)] else []
      invariant s.running == if n == 4 then [Reading(0)] else if n == 5 then [Unwatching(0)]
                             else if n == 6 then [Closing(0)] else if n == 7 then [Erasing(0)] else []
    {
      assert (es + [todo[n]])[..|es|] == es;
      es := es + [todo[n]];
      s := Apply(s, todo[n]);
      n := n + 1;
    }
  }
}
