/**
 * The clock server's receive loop with the socket taken out: each received
 * datagram becomes an Event (the clock reading taken right after receipt,
 * the receive status, the byte count, the sender's address and the decoded
 * packet), and each loop iteration becomes one Step over that event.
 */
module ClockKit {
  import opened ClockTime
  import opened SyncTable

  /** kissnet's socket_status. Only Valid means a datagram was received. */
  datatype SocketStatus = Errored | Valid | WouldBlock | TimedOut | CleanlyDisconnected

  datatype PacketType = Request | Reply | Acknowledge | Kill

  /** A ClockPacket after decoding. */
  datatype Packet = Packet(
    kind: PacketType,
    clientRequestTime: Timestamp,
    serverReplyTime: Timestamp,
    clockOffset: Duration,
    rtt: Duration)

  /**
   * One result of socket.recv, together with the clock reading taken right
   * after it. `sender` is the peer's address string without its port, the
   * key of the table, so two clients behind one address share one entry.
   * A REPLY is addressed to this same string here, where the source sends
   * it to the full endpoint (address and port).
   */
  datatype Event = Event(numBytes: int, status: SocketStatus, now: Timestamp, sender: string, packet: Packet)

  /** What one loop iteration did; the first three are the skipped iterations, in guard order. */
  datatype Outcome =
    | ClockCorrupt
    | NoPacket(status: SocketStatus)
    | WrongLength(numBytes: int)
    | Replied(to: string, reply: Packet)
    | Recorded(report: Option<Aggregate>)
    | Killed
    | Ignored(kind: PacketType)

  datatype Phase = Serving | Stopped

  datatype Server = Server(phase: Phase, sync: Sync)

  datatype Transition = Transition(next: Server, outcome: Outcome)

  datatype Trace = Trace(final: Server, outcomes: seq<Outcome>)

  /** An event that passes all three guards of the loop and reaches the switch. */
  predicate Accepted(ev: Event, packetLength: int) {
    ev.now.Tp? && ev.status == Valid && ev.numBytes == packetLength
  }

  predicate IsKill(ev: Event, packetLength: int) {
    Accepted(ev, packetLength) && ev.packet.kind == Kill
  }

  /** One iteration of the receive loop, as a transition of the server state. */
  ghost function Dispatch(srv: Server, ev: Event, packetLength: int): (t: Transition)
    requires srv.phase == Serving
    ensures ev.now.TpInvalid? ==> t == Transition(srv, ClockCorrupt)
    ensures !Accepted(ev, packetLength) ==> t.next == srv && !t.outcome.Replied?
    ensures t.next.phase == Stopped <==> IsKill(ev, packetLength)
    ensures IsKill(ev, packetLength) ==> t.outcome == Killed && t.next.sync == srv.sync
    ensures t.outcome.Replied? <==> Accepted(ev, packetLength) && ev.packet.kind == Request
    ensures t.outcome.Replied? ==>
      && t.next == srv
      && t.outcome.to == ev.sender
      && t.outcome.reply.kind == Reply
      && t.outcome.reply.serverReplyTime == ev.now
      && t.outcome.reply.(kind := ev.packet.kind, serverReplyTime := ev.packet.serverReplyTime) == ev.packet
    ensures t.next.sync != srv.sync ==> Accepted(ev, packetLength) && ev.packet.kind == Acknowledge
    ensures Accepted(ev, packetLength) && ev.packet.kind == Acknowledge ==>
      && t.next.phase == Serving
      && t.next.sync == Record(srv.sync, ev.sender, ev.packet.clockOffset, ev.packet.rtt, ev.now.usec)
      && t.outcome == Recorded(Report(srv.sync, ev.sender, ev.packet.clockOffset, ev.packet.rtt, ev.now.usec))
  {
    if ev.now.TpInvalid? then Transition(srv, ClockCorrupt)
    else if ev.status != Valid then Transition(srv, NoPacket(ev.status))
    else if ev.numBytes != packetLength then Transition(srv, WrongLength(ev.numBytes))
    else
      var p := ev.packet;
      var now := ev.now.usec;
      match p.kind
      case Request => Transition(srv, Replied(ev.sender, p.(kind := Reply, serverReplyTime := ev.now)))
      case Acknowledge =>
        Transition(srv.(sync := Record(srv.sync, ev.sender, p.clockOffset, p.rtt, now)),
                   Recorded(Report(srv.sync, ev.sender, p.clockOffset, p.rtt, now)))
      case Kill => Transition(srv.(phase := Stopped), Killed)
      case _ => Transition(srv, Ignored(p.kind))
  }

  /** The receive loop over a finite run of events: it stops at the first KILL. */
  ghost function Serve(srv: Server, evs: seq<Event>, packetLength: int): (tr: Trace)
    ensures srv.phase == Stopped ==> tr == Trace(srv, [])
    ensures tr.final.phase == Stopped <==>
      srv.phase == Stopped || exists i :: 0 <= i < |evs| && IsKill(evs[i], packetLength)
    ensures tr.final.phase == Serving ==> |tr.outcomes| == |evs|
    ensures |tr.outcomes| <= |evs|
    decreases |evs|
  {
    if srv.phase == Stopped || evs == [] then Trace(srv, [])
    else
      var t := Dispatch(srv, evs[0], packetLength);
      var rest := Serve(t.next, evs[1..], packetLength);
      assert forall i :: 0 < i < |evs| ==> evs[i] == evs[1..][i - 1];
      Trace(rest.final, [t.outcome] + rest.outcomes)
  }

  /** Serve takes its first event through Dispatch and continues from the resulting state. */
  lemma ServeFirst(srv: Server, evs: seq<Event>, packetLength: int)
    requires srv.phase == Serving && evs != []
    ensures var t := Dispatch(srv, evs[0], packetLength);
            var rest := Serve(t.next, evs[1..], packetLength);
            Serve(srv, evs, packetLength) == Trace(rest.final, [t.outcome] + rest.outcomes)
  {
  }

  /**
   * Once a KILL is processed the loop is over: events after it are never
   * looked at, the server ends Stopped, and the KILL's own outcome is last.
   */
  lemma {:induction false} NothingAfterKill(srv: Server, pre: seq<Event>, ev: Event, post: seq<Event>, packetLength: int)
    requires srv.phase == Serving
    requires forall i :: 0 <= i < |pre| ==> !IsKill(pre[i], packetLength)
    requires IsKill(ev, packetLength)
    ensures Serve(srv, pre + [ev] + post, packetLength) == Serve(srv, pre + [ev], packetLength)
    ensures Serve(srv, pre + [ev], packetLength).final.phase == Stopped
    ensures |Serve(srv, pre + [ev], packetLength).outcomes| == |pre| + 1
    ensures Serve(srv, pre + [ev], packetLength).outcomes[|pre|] == Killed
    decreases |pre|
  {
    if pre == [] {
      assert ([ev] + post)[1..] == post;
      assert [ev][1..] == [];
    } else {
      var t := Dispatch(srv, pre[0], packetLength);
      assert t.next.phase == Serving;
      assert (pre + [ev] + post)[1..] == pre[1..] + [ev] + post;
      assert (pre + [ev])[1..] == pre[1..] + [ev];
      NothingAfterKill(t.next, pre[1..], ev, post, packetLength);
    }
  }

  /**
   * Faulty traffic never stops the server: a run of events that all fail one
   * of the three guards leaves the state as it was, one outcome per event.
   */
  lemma {:induction false} RejectedKeepServing(srv: Server, evs: seq<Event>, packetLength: int)
    requires srv.phase == Serving
    requires forall i :: 0 <= i < |evs| ==> !Accepted(evs[i], packetLength)
    ensures Serve(srv, evs, packetLength).final == srv
    ensures |Serve(srv, evs, packetLength).outcomes| == |evs|
    decreases |evs|
  {
    if evs != [] {
      assert !Accepted(evs[0], packetLength);
      assert forall i :: 0 <= i < |evs| - 1 ==> evs[1..][i] == evs[i + 1];
      RejectedKeepServing(srv, evs[1..], packetLength);
    }
  }

  /** The server of ClockServer.cpp: the bookkeeping fields and the receive loop. */
  class ClockServer {
    /** ClockPacket::PACKET_LENGTH; its value is fixed by the packet codec. */
    const packetLength: int
    var log: bool
    var ackData: Table
    var tRecalculated: int
    var phase: Phase

    ghost function State(): Server
      reads this
    {
      Server(phase, Sync(log, ackData, tRecalculated))
    }

    /** `start` is the server clock's reading at construction. */
    constructor (packetLength: int, start: int)
      ensures this.packetLength == packetLength
      ensures State() == Server(Serving, Sync(false, map[], start))
    {
      this.packetLength := packetLength;
      ackData := map[];
      log := false;
      tRecalculated := start;
      phase := Serving;
    }

    /** updateEntry: record an ACK's sample and, at most every 500 ms, purge and recompute offsetMax. */
    method UpdateEntry(addr: string, offset: Duration, rtt: Duration, now: int) returns (report: Option<Aggregate>)
      modifies this
      ensures phase == old(phase)
      ensures State().sync == Record(old(State().sync), addr, offset, rtt, now)
      ensures report == Report(old(State().sync), addr, offset, rtt, now)
    {
      if !log {
        return None;
      }
      ackData := ackData[addr := Entry(now, offset, rtt)];
      if now < tRecalculated + RecomputeInterval {
        return None;
      }
      tRecalculated := now;
      ackData := Purge(ackData, now - PurgeWindow);
      var offsetMax := ComputeOffsetMax(ackData);
      report := Some(offsetMax);
    }

    /** One iteration of the receive loop, after socket.recv has returned `ev`. */
    method Step(ev: Event) returns (outcome: Outcome)
      requires phase == Serving
      modifies this
      ensures Transition(State(), outcome) == Dispatch(old(State()), ev, packetLength)
    {
      var now := ev.now;
      if now.TpInvalid? {
        return ClockCorrupt;
      }
      if ev.status != Valid {
        return NoPacket(ev.status);
      }
      if ev.numBytes != packetLength {
        return WrongLength(ev.numBytes);
      }
      var packet := ev.packet;
      match packet.kind {
        case Request =>
          packet := packet.(kind := Reply, serverReplyTime := now);
          outcome := Replied(ev.sender, packet);
        case Acknowledge =>
          var report := UpdateEntry(ev.sender, packet.clockOffset, packet.rtt, now.usec);
          outcome := Recorded(report);
        case Kill =>
          phase := Stopped;
          outcome := Killed;
        case _ =>
          outcome := Ignored(packet.kind);
      }
    }

    /** run: process received events in order until a KILL arrives or the events run out. */
    method Run(events: seq<Event>) returns (outcomes: seq<Outcome>)
      requires phase == Serving
      modifies this
      ensures Trace(State(), outcomes) == Serve(old(State()), events, packetLength)
    {
      outcomes := [];
      var i := 0;
      while i < |events|
        invariant 0 <= i <= |events|
        invariant phase == Serving
        invariant Serve(old(State()), events, packetLength) ==
          var rest := Serve(State(), events[i..], packetLength);
          Trace(rest.final, outcomes + rest.outcomes)
      {
        ghost var before := State();
        ghost var rest := Serve(Dispatch(before, events[i], packetLength).next, events[i + 1..], packetLength);
        assert events[i..][1..] == events[i + 1..];
        ServeFirst(before, events[i..], packetLength);
        var outcome := Step(events[i]);
        assert State() == Dispatch(before, events[i], packetLength).next;
        assert Serve(State(), events[i + 1..], packetLength) == rest;
        assert outcomes + ([outcome] + rest.outcomes) == (outcomes + [outcome]) + rest.outcomes;
        outcomes := outcomes + [outcome];
        i := i + 1;
        if outcome == Killed {
          return;
        }
      }
    }
  }
}
