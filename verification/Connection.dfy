/** The GDB client seen as whole packets, with the stub at work between any two of its steps. */
module Connection {
  import opened Wire
  import Text

  datatype Failure = TimedOut | Refused | Wedged | WrongState | NotFound | BadArgument

  datatype Outcome<+T> = Ok(value: T) | Err(error: Failure)

  /** Taking the first item in front of a client that awaits an ack. */
  lemma TakeFromSent(l: Line, n: nat, op: Op, halting: bool, still: bool, before: set<Place>)
    requires Sent(l, n, op, halting, still) && l.toClient != [] && Effective(l, op, before)
    ensures var first, rest := l.toClient[0], l.(toClient := l.toClient[1..]);
      Effective(rest, op, before)
      && if first.Stop? then !still && Sent(rest, n, op, halting, still)
         else first.Ack? && l.toStub == [] && AfterAck(rest.toClient, n, op, l.running, halting)
  {
  }

  /** A command written on an idle line. */
  lemma SentOnIdle(l: Line, n: nat, op: Op)
    requires Quiet(l)
    ensures var l' := l.(toStub := l.toStub + [Ask(n, op)]);
      Sent(l', n, op, op.Replies() && Halting(l), Still(l)) && Effective(l', op, l.armed)
  {
    assert (l.toStub + [Ask(n, op)])[..|l.toStub|] == l.toStub;
  }

  lemma DidFalls(l: Line, m: StubMove)
    requires CanMove(l, m)
    ensures Potential(Moved(l, m)) < Potential(l)
  {
  }

  lemma FollowedRead(l: Line, left: seq<Item>, op: Op, still: bool, start: seq<CpuEvent>, now: seq<CpuEvent>)
    ensures Followed(l, op, still, start, now) ==> Followed(l.(toClient := left), op, still, start, now)
    ensures Followed(l, op, still, start, now) && l.toStub == [] ==> Obeyed(op, l.running, still, start, now)
  {
  }

  lemma SameAfter(l: Line, l': Line, did: seq<CpuEvent>)
    requires LaterDid(l, l', did)
    ensures Later(l, l') && SameChange(l, l', {})
  {
    hide SameChange;
    SameLater(l, l');
  }

  lemma MovesThat(l: Line, l': Line, did: seq<CpuEvent>) returns (ms: seq<StubMove>)
    requires LaterDid(l, l', did)
    ensures CanMoveAll(l, ms) && MovedAll(l, ms) == l' && CausedAll(l, ms) == did
  {
    ms :| CanMoveAll(l, ms) && MovedAll(l, ms) == l' && CausedAll(l, ms) == did;
  }

  class Connection {
    var line: Line
    var pending: seq<Item>
    var nextSerial: nat
    // The history of the connection: every command packet written and how many were given up, how often an
    // interrupt was written, every packet handed out as a stop, every packet taken for the reply to a command,
    // and what the CPU did, in order.
    ghost var commands: seq<Op>
    ghost var givenUp: nat
    ghost var interrupts: nat
    ghost var taken: seq<Item>
    ghost var delivered: seq<Delivery>
    ghost var events: seq<CpuEvent>

    constructor (line: Line)
      ensures this.line == line && pending == [] && nextSerial == 0
      ensures commands == [] && givenUp == interrupts == 0 && taken == [] && delivered == [] && events == []
    {
      this.line, pending, nextSerial := line, [], 0;
      commands, givenUp, interrupts, taken, delivered, events := [], 0, 0, [], [], [];
    }

    /** No command outstanding: only stop replies in front of the client, only interrupts behind it. */
    ghost predicate Idle()
      reads this
    {
      Quiet(line) && AllStops(pending)
    }

    /** Time passes: any number of moves of the stub. */
    method Meanwhile() returns (ghost did: seq<CpuEvent>)
      modifies this`line, this`events
      ensures LaterDid(old(line), line, did) && events == old(events) + did
      ensures Potential(line) <= Potential(old(line))
    {
      hide LaterDid;
      ghost var start := line;
      did := [];
      DidNothing(line);
      while true
        invariant LaterDid(start, line, did) && events == old(events) + did && Potential(line) <= Potential(start)
        decreases Potential(line)
      {
        var m: StubMove := *;
        if * {
          return;
        }
        if !CanMove(line, m) {
          return;
        }
        DidMore(start, line, did, m);
        DidFalls(line, m);
        Text.Associate(old(events), did, Caused(line, m));
        events, did := events + Caused(line, m), did + Caused(line, m);
        line := Moved(line, m);
      }
    }

    /** Command `n` is out and everything in front of its ack is accounted for. */
    ghost predicate Awaiting(n: nat, op: Op, halting: bool, still: bool, before: set<Place>)
      reads this
    {
      && AllStops(pending) && Sent(line, n, op, halting, still)
      && (halting ==> op.Replies()) && (still && op.Replies() ==> halting) && Effective(line, op, before)
    }

    /** Read up to the ack of command `n`, queueing the packets in front of it. */
    method ConsumeAck(ghost n: nat, ghost op: Op, ghost halting: bool, ghost still: bool,
                      ghost before: set<Place>, ghost start: seq<CpuEvent>)
      returns (r: Outcome<()>)
      modifies this`line, this`pending, this`events
      ensures old(pending) <= pending && (r.Err? ==> r.error == TimedOut)
      ensures SameChange(old(line), line, {})
      ensures old(Awaiting(n, op, halting, still, before)) && r.Ok? ==>
        AllStops(pending) && line.toStub == [] && AfterAck(line.toClient, n, op, line.running, halting)
        && (still ==> pending == old(pending)) && Effective(line, op, before)
      ensures old(events) <= events && (r.Err? ==> line.toClient == [])
      ensures old(Hearts(line, n)) ==> Hearts(line, n)
      ensures old(Awaiting(n, op, halting, still, before) && Followed(line, op, still, start, events)) && r.Ok? ==>
        Obeyed(op, line.running, still, start, events)
    {
      hide SameChange, Obeyed, LaterDid, Sent, Effective, AfterAck, Later, Hearts, Followed, Served;
      ghost var hearts := Hearts(line, n);
      ghost var good, l0 := Awaiting(n, op, halting, still, before), line;
      ghost var follows := good && Followed(line, op, still, start, events);
      SameAtFirst(line, {});
      while true
        invariant old(pending) <= pending && SameChange(l0, line, {}) && old(events) <= events
        invariant (follows ==> Followed(line, op, still, start, events)) && (hearts ==> Hearts(line, n))
        invariant good ==> Awaiting(n, op, halting, still, before) && (still ==> pending == old(pending))
        decreases Potential(line)
      {
        ghost var l, done := line, events;
        ghost var did := Meanwhile();
        SameAfter(l, line, did);
        SameTwice(l0, l, line, {}, {});
        ghost var ms := MovesThat(l, line, did);
        if hearts {
          HeartsLater(l, ms, n);
        }
        if good {
          SentLater(l, ms, n, op, halting, still, before);
          if follows {
            FollowedLater(l, ms, n, op, halting, still, start, done);
          }
        }
        if line.toClient == [] {
          return Err(TimedOut);
        }
        var first := line.toClient[0];
        if good {
          TakeFromSent(line, n, op, halting, still, before);
        }
        SameRead(line, line.toClient[1..]);
        if hearts {
          HeartsRead(line, 1, n);
        }
        FollowedRead(line, line.toClient[1..], op, still, start, events);
        SameTwice(l0, line, line.(toClient := line.toClient[1..]), {}, {});
        line := line.(toClient := line.toClient[1..]);
        if first.Ack? {
          return Ok(());
        }
        pending := pending + [first];
      }
    }

    method SendPacket(op: Op) returns (r: Outcome<()>)
      modifies this
      ensures taken == old(taken) && delivered == old(delivered)
      ensures nextSerial == old(nextSerial) + 1 && commands == old(commands) + [op] && old(pending) <= pending
      ensures r.Err? ==> r.error == TimedOut
      ensures SameChange(old(line), line, {op})
      ensures old(Idle()) && r.Ok? ==>
        AllStops(pending) && line.toStub == []
        && AfterAck(line.toClient, old(nextSerial), op, line.running, op.Replies() && old(Halting(line)))
      ensures old(Idle() && Still(line)) && r.Ok? ==> pending == old(pending)
      ensures old(Idle()) && r.Ok? ==> Effective(line, op, old(line.armed))
      ensures givenUp == old(givenUp) + (if r.Err? then 1 else 0) && (r.Err? ==> line.toClient == [])
      ensures old(Idle()) && op.Heartbeat? ==> Hearts(line, old(nextSerial))
      ensures interrupts == old(interrupts) && old(events) <= events
      ensures old(Idle()) && r.Ok? ==> Obeyed(op, line.running, old(Still(line)), old(events), events)
    {
      ghost var n, before, start := nextSerial, line.armed, events;
      ghost var halting, still := op.Replies() && Halting(line), Still(line);
      hide Sent, Effective, AfterAck, SameChange, Obeyed, Hearts;
      if Idle() {
        SentOnIdle(line, n, op);
        HeartsSent(line, n);
      }
      SameWritten(line, Ask(nextSerial, op), {op});
      line := line.(toStub := line.toStub + [Ask(nextSerial, op)]);
      ghost var l := line;
      nextSerial, commands := nextSerial + 1, commands + [op];
      assert old(Idle()) ==> Awaiting(n, op, halting, still, before);
      r := ConsumeAck(n, op, halting, still, before, start);
      SameMore(l, line, {}, {op});
      SameTwice(old(line), l, line, {op}, {op});
      if r.Err? {
        givenUp := givenUp + 1;
      }
    }

    /** The packet `got` was taken from the line `l` as the next one, leaving `rest`. */
    static predicate NextOn(l: Line, got: Item, rest: Line) {
      var i := NextPacket(l.toClient);
      i < |l.toClient| && got == l.toClient[i] && rest == l.(toClient := l.toClient[i + 1..])
    }

    /** The next packet on the wire, stray acks skipped; `seen` is the line it was taken from. */
    method ReadFromWire() returns (r: Outcome<Item>, ghost seen: Line)
      modifies this`line, this`events
      ensures Later(old(line), seen)
      ensures r.Err? ==> r.error == TimedOut && line == seen && NextPacket(seen.toClient) == |seen.toClient|
      ensures r.Ok? ==> NextOn(seen, r.value, line)
      ensures SameChange(old(line), line, {})
      ensures Potential(line) <= Potential(old(line)) && (r.Ok? ==> Potential(line) < Potential(old(line)))
      ensures old(events) <= events && (old(!line.running && line.toStub == []) ==> events == old(events))
    {
      hide SameChange, LaterDid;
      ghost var did := Meanwhile();
      seen := line;
      SameAfter(old(line), line, did);
      if !old(line).running && old(line).toStub == [] {
        HaltedDid(old(line), line, did);
      }
      var i := NextPacket(line.toClient);
      if i == |line.toClient| {
        return Err(TimedOut), seen;
      }
      r := Ok(line.toClient[i]);
      SameRead(line, line.toClient[i + 1..]);
      line := line.(toClient := line.toClient[i + 1..]);
      SameTwice(old(line), seen, line, {}, {});
    }

    /** A completed command gets its own reply and leaves the connection idle again.  With the CPU
        halted, or an interrupt on its way, when it was sent, it leaves nothing in flight at all. */
    method Cmd(op: Op) returns (r: Outcome<string>)
      requires op.Replies()
      modifies this
      ensures nextSerial == old(nextSerial) + 1 && commands == old(commands) + [op] && old(pending) <= pending
      ensures taken == old(taken)
      ensures r.Err? ==> r.error == TimedOut && delivered == old(delivered)
      ensures SameChange(old(line), line, {op})
      ensures givenUp == old(givenUp) + if r.Err? then 1 else 0
      ensures r.Err? ==> NextPacket(line.toClient) == |line.toClient|
      ensures old(Idle()) && op.Heartbeat? && r.Ok? ==> "QC" <= r.value
      ensures r.Ok? ==> |delivered| == |old(delivered)| + 1 && old(delivered) <= delivered
      ensures r.Ok? ==>
        var d := delivered[|old(delivered)|];
        d.serial == old(nextSerial) && TextOf(d.got) == r.value
        && (old(Idle()) ==> d.got.Reply? && d.got.serial == d.serial)
      ensures old(Idle()) && r.Ok? ==> Idle() && line.armed == Effect(op, old(line.armed), r.value)
      ensures old(Idle() && Halting(line)) && r.Ok? ==> Still(line)
      ensures old(Idle() && Still(line)) && r.Ok? ==> pending == old(pending) && events == old(events)
      ensures interrupts == old(interrupts) && old(events) <= events
    {
      hide SameChange;
      var s := SendPacket(op);
      if s.Err? {
        return Err(s.error);
      }
      ghost var l := line;
      var packet, seen := ReadFromWire();
      SameMore(l, line, {}, {op});
      SameTwice(old(line), l, line, {op}, {op});
      if packet.Err? {
        givenUp := givenUp + 1;
        return Err(packet.error);
      }
      if old(Idle()) {
        ghost var halting := old(Halting(line));
        ghost var ms :| CanMoveAll(l, ms) && MovedAll(l, ms) == seen;
        AcknowledgedLater(l, ms, old(nextSerial), halting);
        assert NextPacket(seen.toClient) == 0;
        if op.Heartbeat? {
          HeartsLater(l, ms, old(nextSerial));
        }
      }
      delivered := delivered + [Delivery(nextSerial - 1, packet.value)];
      r := Ok(TextOf(packet.value));
    }

    /** `wait_for_stop`: queued packets first, then the wire. */
    method WaitForStop() returns (r: Outcome<Item>)
      modifies this
      ensures nextSerial == old(nextSerial) && commands == old(commands) && delivered == old(delivered)
      ensures Potential(line) <= Potential(old(line))
      ensures taken == if r.Ok? then old(taken) + [r.value] else old(taken)
      ensures r.Ok? && old(pending) == [] ==> exists l :: Later(old(line), l) && NextOn(l, r.value, line)
      ensures r.Err? ==> r.error == TimedOut && pending == old(pending) == []
      ensures givenUp == old(givenUp) && (r.Err? ==> NextPacket(line.toClient) == |line.toClient|)
      ensures SameChange(old(line), line, {})
      ensures r.Ok? && old(pending) != [] ==>
        r.value == old(pending)[0] && pending == old(pending)[1..] && line == old(line)
      ensures r.Ok? && old(pending) == [] ==> pending == [] && Potential(line) < Potential(old(line))
      ensures old(Idle()) ==> Idle() && line.armed == old(line.armed) && (r.Ok? ==> r.value.Stop?)
      ensures old(Idle() && Halting(line)) ==> Halting(line)
      ensures old(Idle() && Still(line)) ==> line == old(line) && events == old(events)
      ensures interrupts == old(interrupts) && old(events) <= events
    {
      hide SameChange;
      if pending != [] {
        SameAtFirst(line, {});
        r := Ok(pending[0]);
        pending := pending[1..];
      } else {
        ghost var seen: Line;
        r, seen := ReadFromWire();
        if old(Idle()) {
          ghost var ms :| CanMoveAll(old(line), ms) && MovedAll(old(line), ms) == seen;
          QuietLater(old(line), ms);
          assert seen.toClient != [] ==> NextPacket(seen.toClient) == 0;
        }
      }
      if r.Ok? {
        taken := taken + [r.value];
      }
    }

    /** `drain_stop_replies`: everything queued, then reads until one times out or `polls` are done. */
    method DrainStopReplies(polls: nat) returns (out: seq<Item>)
      modifies this
      ensures nextSerial == old(nextSerial) && commands == old(commands) && delivered == old(delivered)
      ensures pending == [] && old(pending) <= out && taken == old(taken) + out && givenUp == old(givenUp)
      ensures |out| < |old(pending)| + polls ==> NextPacket(line.toClient) == |line.toClient|
      ensures SameChange(old(line), line, {})
      ensures old(Idle()) ==> Idle() && line.armed == old(line.armed) && AllStops(out)
      ensures old(Idle() && Halting(line)) ==> Halting(line)
      ensures old(Idle() && Still(line)) ==> line == old(line) && out == old(pending) && events == old(events)
      ensures interrupts == old(interrupts) && old(events) <= events
    {
      hide SameChange;
      SameAtFirst(line, {});
      out := pending;
      pending, taken := [], taken + pending;
      for i := 0 to polls
        invariant nextSerial == old(nextSerial) && commands == old(commands) && delivered == old(delivered)
        invariant pending == [] && old(pending) <= out && taken == old(taken) + out && givenUp == old(givenUp)
        invariant |out| == |old(pending)| + i
        invariant SameChange(old(line), line, {})
        invariant old(Idle()) ==> Idle() && line.armed == old(line.armed) && AllStops(out)
        invariant old(Idle() && Halting(line)) ==> Halting(line)
        invariant old(Idle() && Still(line)) ==> line == old(line) && out == old(pending) && events == old(events)
        invariant interrupts == old(interrupts) && old(events) <= events
      {
        ghost var l := line;
        var packet := WaitForStop();
        SameTwice(old(line), l, line, {}, {});
        if packet.Err? {
          break;
        }
        out := out + [packet.value];
      }
    }

    method Interrupt()
      modifies this`line, this`interrupts
      ensures line == old(line).(toStub := old(line).toStub + [Break]) && interrupts == old(interrupts) + 1
      ensures old(Idle()) ==> Idle() && Halting(line)
      ensures SameChange(old(line), line, {})
    {
      SameWritten(line, Break, {});
      interrupts := interrupts + 1;
      line := line.(toStub := line.toStub + [Break]);
    }

    /** `continue_async`.  Once acknowledged, the CPU runs again, or has run until a breakpoint fired. */
    method ContinueAsync() returns (r: Outcome<()>)
      modifies this
      ensures taken == old(taken) && delivered == old(delivered)
      ensures nextSerial == old(nextSerial) + 1 && commands == old(commands) + [Continue] && old(pending) <= pending
      ensures r.Err? ==> r.error == TimedOut
      ensures givenUp == old(givenUp) + (if r.Err? then 1 else 0) && (r.Err? ==> line.toClient == [])
      ensures old(Idle()) && r.Ok? ==> Idle() && line.toStub == [] && |line.toClient| == (if line.running then 0 else 1)
      ensures old(Idle()) && r.Ok? ==> line.armed == old(line.armed)
      ensures old(Idle() && Still(line)) && r.Ok? ==> pending == old(pending)
      ensures SameChange(old(line), line, {Continue})
      ensures interrupts == old(interrupts) && old(events) <= events
      ensures old(Idle()) && r.Ok? ==> Obeyed(Continue, line.running, old(Still(line)), old(events), events)
    {
      hide SameChange;
      r := SendPacket(Continue);
    }

    /** `step`: the reply read is the oldest stop there is, which is the step's own if no other one was
        queued or on its way when the step was sent. */
    method Step() returns (r: Outcome<Item>)
      modifies this
      ensures taken == if r.Ok? then old(taken) + [r.value] else old(taken)
      ensures r.Err? ==> r.error == TimedOut
      ensures old(Idle()) && r.Ok? ==> Idle() && r.value.Stop? && !line.running && line.armed == old(line.armed)
      ensures old(Idle()) && r.Ok? ==> |pending| + |line.toClient| >= old(|pending|)
      ensures old(Idle() && Still(line) && pending == []) && r.Ok? ==> Still(line) && pending == []
      ensures old(givenUp) <= givenUp && (r.Err? ==> NextPacket(line.toClient) == |line.toClient|)
      ensures commands == old(commands) + [StepOne] && interrupts == old(interrupts) && old(events) <= events
      ensures old(Idle()) && r.Ok? ==> Obeyed(StepOne, false, old(Still(line)), old(events), events)
      ensures r.Ok? && old(pending) != [] ==> r.value == old(pending)[0]
    {
      var s := SendPacket(StepOne);
      if s.Err? {
        return Err(s.error);
      }
      ghost var l := line;
      if pending != [] {
        r := Ok(pending[0]);
        pending := pending[1..];
      } else {
        ghost var seen: Line;
        r, seen := ReadFromWire();
        if old(Idle()) {
          ghost var ms :| CanMoveAll(l, ms) && MovedAll(l, ms) == seen;
          QuietLater(l, ms);
          HaltedLater(l, ms);
        }
      }
      if r.Ok? {
        taken := taken + [r.value];
      }
    }

    /** `probe_responsive`: a heartbeat that got a reply which is not an error. */
    method ProbeResponsive() returns (alive: bool)
      modifies this
      ensures taken == old(taken)
      ensures nextSerial == old(nextSerial) + 1 && commands == old(commands) + [Heartbeat]
      ensures old(Idle()) && alive ==> Idle() && line.armed == old(line.armed)
      ensures SameChange(old(line), line, {Heartbeat})
      ensures interrupts == old(interrupts) && old(events) <= events && old(pending) <= pending
      ensures old(givenUp) <= givenUp && (old(Idle()) && givenUp == old(givenUp) ==> alive)
      ensures delivered == old(delivered) || (|delivered| == |old(delivered)| + 1 && old(delivered) <= delivered)
      ensures alive <==>
        delivered != old(delivered) && !("E" <= TextOf(delivered[|old(delivered)|].got))
    {
      hide SameChange;
      var reply := Cmd(Heartbeat);
      assert reply.Ok? && "QC" <= reply.value ==> reply.value[0] == 'Q';
      alive := reply.Ok? && !("E" <= reply.value);
    }

    /** `_set_break`: an empty reply or a leading `E` is refused, any other one is success. */
    method SetBreak(op: Op) returns (r: Outcome<()>)
      requires op.Arm? || op.Disarm?
      modifies this
      ensures taken == old(taken)
      ensures nextSerial == old(nextSerial) + 1 && commands == old(commands) + [op]
      ensures r.Err? ==> r.error == TimedOut || r.error == Refused
      ensures old(Idle()) && r.Ok? ==>
        Idle() && line.armed == (if op.Arm? then old(line.armed) + {op.place} else old(line.armed) - {op.place})
      ensures old(Idle()) && r == Err(Refused) ==> Idle() && line.armed == old(line.armed)
      ensures old(Idle() && Still(line)) && r != Err(TimedOut) ==> Still(line) && pending == old(pending)
      ensures SameChange(old(line), line, {op})
      ensures interrupts == old(interrupts) && old(events) <= events
      ensures old(Idle() && Still(line)) && r != Err(TimedOut) ==> events == old(events)
      ensures givenUp == old(givenUp) + if r == Err(TimedOut) then 1 else 0
      ensures r == Err(TimedOut) ==> NextPacket(line.toClient) == |line.toClient|
      ensures if r == Err(TimedOut) then delivered == old(delivered) else |delivered| == |old(delivered)| + 1
      ensures r != Err(TimedOut) ==>
        var text := TextOf(delivered[|old(delivered)|].got);
        r.Ok? <==> text != "" && text[0] != 'E'
    {
      hide SameChange;
      var reply := Cmd(op);
      if reply.Err? {
        return Err(reply.error);
      }
      r := if Accepts(reply.value) then Ok(()) else Err(Refused);
    }
  }
}
