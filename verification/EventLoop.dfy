/**
 The objects of the event loop: the event record with its epoll registration, and accept_event and
 recv_task run from beginning to end by one thread.
 */
module EventLoop {
  import opened Framing
  import opened LockedMap

  const EPOLLIN := 0x1
  const EPOLLONESHOT := 0x4000_0000

  /** What epoll knows of a descriptor: its record, the event mask, and whether it will report it. */
  datatype Interest = Interest(record: MyEvent, events: int, armed: bool)

  datatype CtlOp = CtlAdd | CtlMod | CtlDel

  class Epoll {
    var interest: map<int, Interest>

    constructor ()
      ensures interest == map[]
    {
      interest := map[];
    }

    /** epoll_ctl: adding twice, or changing what is not there, is an error. */
    method Ctl(op: CtlOp, fd: int, record: MyEvent, events: int) returns (ret: int)
      modifies this
      ensures ret == 0 <==> (op.CtlAdd? <==> fd !in old(interest))
      ensures ret != 0 ==> interest == old(interest)
      ensures ret == 0 ==> interest == if op.CtlDel? then old(interest) - {fd}
                                       else old(interest)[fd := Interest(record, events, true)]
    {
      if op.CtlAdd? != (fd !in interest) {
        return -1;
      }
      ret := 0;
      interest := if op.CtlDel? then interest - {fd} else interest[fd := Interest(record, events, true)];
    }
  }

  /** myevent_s */
  class MyEvent {
    var fd: int
    var epoll: Epoll
    var events: int
    var status: int

    constructor EventSet(fd: int, epoll: Epoll)
      ensures this.fd == fd && this.epoll == epoll && events == 0 && status == 0
    {
      this.fd, this.epoll, events, status := fd, epoll, 0, 0;
    }

    /** The status flag agrees with epoll. */
    ghost predicate InStep()
      reads this, epoll
    {
      && (status == 0 || status == 1)
      && (status == 1 <==> fd in epoll.interest)
      && (status == 1 ==> epoll.interest[fd].record == this && epoll.interest[fd].events == events)
    }

    /** Put the record on watch, or back on watch; either way it is armed afterwards. */
    method EventAdd(events: int)
      requires InStep()
      modifies this`events, this`status, epoll
      ensures InStep() && status == 1 && this.events == events
      ensures epoll.interest == old(epoll.interest)[fd := Interest(this, events, true)]
    {
      this.events := events;
      var op := CtlAdd;
      if status == 1 {
        op := CtlMod;
      } else {
        status := 1;
      }
      var ret := epoll.Ctl(op, fd, this, events);
    }

    method EventDel()
      requires InStep()
      modifies this`status, epoll
      ensures InStep() && status == 0
      ensures epoll.interest == old(epoll.interest) - {fd}
    {
      if status != 1 {
        return;
      }
      status := 0;
      var ret := epoll.Ctl(CtlDel, fd, this, 0);
    }
  }

  datatype DataBuffer = DataBuffer(sockfd: int, content: seq<byte>)

  /** The server side of the connections, with the descriptors that are open and the tasks it queued. */
  class Server {
    const epoll: Epoll
    const mapSockfdToEvent: MyMap<int, MyEvent?>
    var openFds: set<int>
    var dealing: seq<DataBuffer>

    constructor ()
      ensures openFds == {} && dealing == [] && epoll.interest == map[] && mapSockfdToEvent.m_map == map[]
      ensures fresh(epoll) && fresh(mapSockfdToEvent)
    {
      epoll := new Epoll();
      mapSockfdToEvent := new MyMap();
      openFds, dealing := {}, [];
    }

    /** A new connection on descriptor `fd`: watched once, and in the map. */
    method AcceptEvent(fd: int) returns (clientEv: MyEvent)
      requires fd !in openFds && fd !in epoll.interest
      modifies this`openFds, epoll, mapSockfdToEvent
      ensures fresh(clientEv) && clientEv.fd == fd && clientEv.epoll == epoll && clientEv.InStep()
      ensures openFds == old(openFds) + {fd}
      ensures epoll.interest == old(epoll.interest)[fd := Interest(clientEv, EPOLLIN + EPOLLONESHOT, true)]
      ensures mapSockfdToEvent.m_map == old(mapSockfdToEvent.m_map)[fd := clientEv]
    {
      openFds := openFds + {fd};
      clientEv := new MyEvent.EventSet(fd, epoll);
      clientEv.EventAdd(EPOLLIN + EPOLLONESHOT);
      mapSockfdToEvent.Insert(fd, clientEv);
    }

    /**
     recv_task on a record that epoll has just disarmed. Either one packet is queued and the record
     is armed again with its mask, or nothing is queued and no trace of the connection remains, or the
     process is terminated by a negative length.
     */
    method RecvTask(ev: MyEvent, sock: Socket) returns (out: Outcome)
      requires ev.epoll == epoll && ev.InStep() && ev.status == 1 && ev.fd in openFds
      modifies this`openFds, this`dealing, epoll, mapSockfdToEvent, ev`events, ev`status, sock`stream, sock`calls
      ensures (out, sock.stream, sock.calls) == Received(old(sock.stream), old(sock.calls), sock.chunk)
      ensures out.Packet? ==>
                && dealing == old(dealing) + [DataBuffer(ev.fd, out.content)]
                && epoll.interest == old(epoll.interest)[ev.fd := Interest(ev, old(ev.events), true)]
                && openFds == old(openFds) && mapSockfdToEvent.m_map == old(mapSockfdToEvent.m_map)
      ensures out.Closed? ==>
                && dealing == old(dealing)
                && epoll.interest == old(epoll.interest) - {ev.fd}
                && openFds == old(openFds) - {ev.fd}
                && mapSockfdToEvent.m_map == old(mapSockfdToEvent.m_map) - {ev.fd}
      ensures out.Terminated? ==>
                && dealing == old(dealing) && epoll.interest == old(epoll.interest)
                && openFds == old(openFds) && mapSockfdToEvent.m_map == old(mapSockfdToEvent.m_map)
      ensures ev.InStep() && ev.status == if out.Closed? then 0 else 1
    {
      out := ReceivePacket(sock);
      match out
      case Packet(content) =>
        dealing := dealing + [DataBuffer(ev.fd, content)];
        ev.EventAdd(ev.events);
      case Closed =>
        ev.EventDel();
        openFds := openFds - {ev.fd};
        mapSockfdToEvent.Erase(ev.fd);
      case Terminated =>
    }
  }
}
