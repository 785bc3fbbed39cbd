/** The session: its state, its registry, the modification fence, execution control and the temporary
    breakpoints, on a connection whose stub works on between any two steps. */
module Session {
  import opened Text
  import opened Wire
  import opened Connection
  import opened Registry
  import StopReply

  /** What `pause` reports: the stop it took, or the program counter of a session already paused. */
  datatype PauseResult = Taken(stop: Item) | Already(pc: string)

  /** Where the CPU stopped: as the stop reply says, or the text that the stub gave for the program counter. */
  datatype Landing = Carried(raw: Item, pc: int) | ReadBack(raw: Item, text: string)

  /** `read_register` makes a value of this reply. */
  predicate HasValue(text: string) { text != "" && text[0] != 'E' && FromHex(text) }

  datatype SessionState = Disconnected | ConnectedPaused | ConnectedRunning | Error

  /** One call of `add_breakpoint` or `add_watchpoint`, `None` for an invalid kind, or one of `remove`. */
  datatype Edit = AddAt(place: Option<Place>) | RemoveId(id: nat)

  predicate OutcomeOf(e: Edit, c: Call) {
    match e
    case AddAt(None) => c == AddRefused
    case AddAt(Some(p)) => c == AddRefused || ((c.Added? || c.AddLost? || c.AddUnsure?) && c.place == p)
    case RemoveId(id) => (c.Removed? || c.RemoveRefused? || c.RemoveLost?) && c.id == id
  }

  /** The calls begun, each with its outcome; only the last one may be in doubt. */
  predicate Outcomes(edits: seq<Edit>, outcomes: seq<Call>) {
    && |outcomes| <= |edits|
    && (forall i :: 0 <= i < |outcomes| ==> OutcomeOf(edits[i], outcomes[i]))
    && forall i :: 0 <= i < |outcomes| - 1 ==> outcomes[i].Answered()
  }

  /** The commands around a change of breakpoints. */
  const AROUND: set<Op> := {Heartbeat, Continue}

  /** How a change in a session that is not RUNNING ends, whatever state the line was in: a reply was delivered for
      it and decides between success and refusal, or none was and it timed out. */
  predicate Heard<T>(r: Outcome<T>, before: seq<Delivery>, now: seq<Delivery>) {
    if now == before then r == Err(TimedOut)
    else
      && |now| == |before| + 1
      && var text := TextOf(now[|before|].got);
         if text != "" && text[0] != 'E' then r.Ok? else r == Err(Refused)
  }

  lemma HeardAlso<T, U>(r: Outcome<T>, r': Outcome<U>, before: seq<Delivery>, now: seq<Delivery>)
    requires Heard(r, before, now) && (r.Ok? <==> r'.Ok?) && (r.Err? ==> r'.error == r.error)
    ensures Heard(r', before, now)
  {
  }

  /** The commands of one change: the change alone when the session is not RUNNING; otherwise the probe, the
      fence, the change and `c`, or the probe alone when that fails. */
  function Written(op: Option<Op>, wasRunning: bool, entered: bool): seq<Op> {
    var change := if op.Some? then [op.value] else [];
    if !wasRunning then change
    else if entered then [Heartbeat, Heartbeat] + change + [Continue]
    else [Heartbeat]
  }

  /** The reply to a heartbeat, or an answer that the stub does not know it. */
  predicate MayFence(text: string) { "QC" <= text || text == "" || "E" <= text }

  /** The changes of breakpoints among the commands. */
  function Asked(commands: seq<Op>): seq<Op> {
    if commands == [] then []
    else
      var last := commands[|commands| - 1];
      Asked(commands[..|commands| - 1]) + if Changes(last) then [last] else []
  }

  lemma {:induction false} AskedMore(commands: seq<Op>, more: seq<Op>)
    ensures Asked(commands + more) == Asked(commands) + Asked(more)
  {
    if more == [] {
      assert commands + more == commands;
    } else {
      AskedMore(commands, more[..|more| - 1]);
      assert (commands + more)[..|commands + more| - 1] == commands + more[..|more| - 1];
    }
  }

  /** The removal of every spec, in order. */
  function Disarms(specs: seq<Spec>): seq<Op> {
    seq(|specs|, i requires 0 <= i < |specs| => Disarm(specs[i].place))
  }

  lemma AskedIs(op: Op, running: bool)
    requires Changes(op)
    ensures Asked(Written(Some(op), running, true)) == [op]
  {
    var around := Written(Some(op), running, true);
    if running {
      assert around[..3] == [Heartbeat, Heartbeat, op] && around[..3][..2] == [Heartbeat, Heartbeat];
      assert [Heartbeat, Heartbeat][..1] == [Heartbeat] && [Heartbeat][..0] == [];
      assert Asked([Heartbeat]) == [] && Asked([Heartbeat, Heartbeat]) == [];
    } else {
      assert around[..0] == [];
    }
  }

  lemma OneMoreDisarm(before: seq<Op>, written: seq<Op>, now: seq<Op>, specs: seq<Spec>, n: nat, running: bool)
    requires before <= written && n < |specs|
    requires now == written + Written(Some(Disarm(specs[n].place)), running, true)
    requires Asked(written[|before|..]) == Disarms(specs[..n])
    ensures before <= now && Asked(now[|before|..]) == Disarms(specs[..n + 1])
  {
    hide Asked, Written;
    var more := Written(Some(Disarm(specs[n].place)), running, true);
    AskedIs(Disarm(specs[n].place), running);
    AskedMore(written[|before|..], more);
    assert now[|before|..] == written[|before|..] + more;
    assert Disarms(specs[..n + 1]) == Disarms(specs[..n]) + [Disarm(specs[n].place)];
  }

  /** On an idle line the change `op` alone has been asked for, and so it stays. */
  lemma OnlyChange(l: Line, l': Line, op: Op)
    requires Quiet(l) && SameChange(l, l', AROUND + {op})
    ensures OnlyBy(l', op, l.armed)
  {
    assert OnlyBy(l, op, l.armed);
    assert forall o <- AROUND + {op} :: Changes(o) ==> o == op;
  }

  lemma ObeyedSince(op: Op, running: bool, still: bool, start: seq<CpuEvent>, before: seq<CpuEvent>,
                    now: seq<CpuEvent>)
    requires start <= before && Obeyed(op, running, still, before, now)
    ensures Obeyed(op, running, false, start, now) && (start == before ==> Obeyed(op, running, still, start, now))
    ensures start <= now
  {
  }

  lemma HeartArrived(l: Line, seen: Line, n: nat)
    requires Later(l, seen) && Acknowledged(l, n, true) && Hearts(l, n)
    ensures NextPacket(seen.toClient) == 0 && seen.toClient != [] && "QC" <= TextOf(seen.toClient[0])
  {
    var ms :| CanMoveAll(l, ms) && MovedAll(l, ms) == seen;
    AcknowledgedLater(l, ms, n, true);
    HeartsLater(l, ms, n);
  }

  lemma AckedBehind(l: Line, n: nat)
    requires l.toStub == [] && AfterAck(l.toClient, n, Heartbeat, l.running, true)
    ensures Acknowledged(l, n, true)
  {
  }

  lemma ArmedOnlyBy(l: Line, op: Op, before: set<Place>)
    requires OnlyBy(l, op, before)
    ensures l.armed == before || l.armed == Changed(op, before)
  {
  }

  class Session {
    const stub: Connection
    var state: SessionState
    var breakpoints: seq<Spec>
    var nextId: nat
    var watcherAlive: bool

    constructor (stub: Connection)
      ensures this.stub == stub && state == Disconnected && breakpoints == [] && nextId == 1 && !watcherAlive
      ensures Valid()
    {
      this.stub := stub;
      state, breakpoints, nextId, watcherAlive := Disconnected, [], 1, false;
    }

    ghost predicate Valid()
      reads this
    {
      WellNumbered(breakpoints, nextId)
    }

    /** The registry and what is armed at the stub. */
    ghost function Books(): Books
      reads this, stub
    {
      Registry.Books(breakpoints, nextId, stub.line.armed)
    }

    method MarkRunning()
      modifies this`state
      ensures state == if old(state) == ConnectedPaused then ConnectedRunning else old(state)
    {
      if state == ConnectedPaused {
        state := ConnectedRunning;
      }
    }

    method MarkPaused()
      modifies this`state
      ensures state == if old(state) == ConnectedRunning then ConnectedPaused else old(state)
    {
      if state == ConnectedRunning {
        state := ConnectedPaused;
      }
    }

    // ---- the modification fence ----

    /** Waits until one gives nothing after a stop has been taken, or `waits` are done. */
    method TakeStops(waits: nat)
      modifies stub
      ensures stub.commands == old(stub.commands) && stub.interrupts == old(stub.interrupts)
      ensures stub.givenUp == old(stub.givenUp)
      ensures old(stub.events) <= stub.events && SameChange(old(stub.line), stub.line, {})
      ensures old(stub.Idle() && Halting(stub.line)) ==>
        stub.Idle() && Halting(stub.line) && stub.line.armed == old(stub.line.armed)
    {
      hide SameChange;
      ghost var start := stub.line;
      SameAtFirst(start, {});
      var sawOne := false;
      for i := 0 to waits
        invariant stub.commands == old(stub.commands) && stub.interrupts == old(stub.interrupts)
        invariant stub.givenUp == old(stub.givenUp)
        invariant old(stub.events) <= stub.events && SameChange(start, stub.line, {})
        invariant old(stub.Idle() && Halting(stub.line)) ==>
          stub.Idle() && Halting(stub.line) && stub.line.armed == old(stub.line.armed)
      {
        ghost var l := stub.line;
        var stop := stub.WaitForStop();
        SameTwice(start, l, stub.line, {}, {});
        if stop.Ok? {
          sawOne := true;
        } else if sawOne {
          break;
        }
      }
    }

    /** Reads until the reply to the heartbeat `n`, or something that may be one, has come. */
    method AwaitFence(replies: nat, ghost n: nat) returns (fenced: bool)
      modifies stub
      ensures stub.commands == old(stub.commands) && stub.interrupts == old(stub.interrupts)
      ensures old(stub.events) <= stub.events && SameChange(old(stub.line), stub.line, {})
      ensures old(AllStops(stub.pending) && Acknowledged(stub.line, n, true)) && fenced ==>
        stub.Idle() && Still(stub.line) && stub.line.armed == old(stub.line.armed)
      ensures stub.givenUp == old(stub.givenUp)
      ensures old(Acknowledged(stub.line, n, true) && Hearts(stub.line, n)) && replies > 0 ==> fenced
      ensures fenced ==>
        exists seen, got :: Connection.NextOn(seen, got, stub.line)
                             && ("QC" <= TextOf(got) || TextOf(got) == "" || "E" <= TextOf(got))
    {
      hide SameChange, Hearts;
      ghost var start := stub.line;
      ghost var good := AllStops(stub.pending) && Acknowledged(start, n, true);
      SameAtFirst(start, {});
      for i := 0 to replies
        invariant stub.commands == old(stub.commands) && stub.interrupts == old(stub.interrupts)
        invariant old(stub.events) <= stub.events && SameChange(start, stub.line, {})
        invariant good ==> AllStops(stub.pending) && stub.line.armed == start.armed
        invariant good ==> Acknowledged(stub.line, n, true) || Still(stub.line)
        invariant stub.givenUp == old(stub.givenUp)
        invariant i > 0 ==> !(Acknowledged(start, n, true) && Hearts(start, n))
        invariant i == 0 ==> stub.line == start
      {
        ghost var l := stub.line;
        var packet, seen := stub.ReadFromWire();
        if Acknowledged(l, n, true) && Hearts(l, n) {
          HeartArrived(l, seen, n);
        }
        SameTwice(start, l, stub.line, {}, {});
        if good {
          ghost var ms :| CanMoveAll(l, ms) && MovedAll(l, ms) == seen;
          if Still(l) {
            QuietLater(l, ms);
          } else {
            AcknowledgedLater(l, ms, n, true);
            assert NextPacket(seen.toClient) == 0;
          }
        }
        if packet.Ok? {
          var text := TextOf(packet.value);
          if MayFence(text) {
            return true;
          }
        }
      }
      fenced := false;
    }

    /** `_quiesce_for_modify`: interrupt, take stops while they come, drain, then a heartbeat whose
        reply can only arrive after everything the stub sent before it.  However many stops are in
        flight, and whenever they arrive, an answered heartbeat (`fenced`) leaves the CPU halted and
        nothing in flight in either direction. */
    method Quiesce(waits: nat, polls: nat, replies: nat) returns (fenced: bool)
      modifies this`state, stub
      ensures state == if old(state) == ConnectedRunning then ConnectedPaused else old(state)
      ensures old(stub.Idle()) && fenced ==> stub.Idle() && Still(stub.line) && stub.line.armed == old(stub.line.armed)
      ensures SameChange(old(stub.line), stub.line, AROUND)
      ensures stub.commands == old(stub.commands) + [Heartbeat] && stub.interrupts == old(stub.interrupts) + 1
      ensures old(stub.events) <= stub.events && old(stub.givenUp) <= stub.givenUp
      ensures old(stub.Idle()) && replies > 0 && stub.givenUp == old(stub.givenUp) ==> fenced
    {
      hide SameChange, Acknowledged, Hearts;
      ghost var start := stub.line;
      stub.Interrupt();
      ghost var asked := stub.line;
      TakeStops(waits);
      SameTwice(start, asked, stub.line, {}, {});
      ghost var taken := stub.line;
      var tail := stub.DrainStopReplies(polls);
      SameTwice(start, taken, stub.line, {}, {});
      ghost var n, drained := stub.nextSerial, stub.line;
      SameMore(start, drained, {}, AROUND);
      fenced := false;
      var sent := stub.SendPacket(Heartbeat);
      SameMore(drained, stub.line, {Heartbeat}, AROUND);
      SameTwice(start, drained, stub.line, AROUND, AROUND);
      if sent.Ok? {
        ghost var acked := stub.line;
        if old(stub.Idle()) {
          AckedBehind(acked, n);
        }
        fenced := AwaitFence(replies, n);
        SameMore(acked, stub.line, {}, AROUND);
        SameTwice(start, acked, stub.line, AROUND, AROUND);
      }
      MarkPaused();
    }

    /** Entering `_safe_to_modify`.  A session that is not RUNNING is left exactly as it is. */
    method EnterModify(waits: nat, polls: nat, replies: nat)
      returns (wasRunning: bool, r: Outcome<()>, fenced: bool)
      modifies this`state, stub
      ensures wasRunning <==> old(state) == ConnectedRunning
      ensures !wasRunning ==> r.Ok? && fenced && state == old(state) && unchanged(stub)
      ensures r.Err? ==> r.error == Wedged && state == Error
      ensures wasRunning && r.Ok? ==> state == ConnectedPaused && stub.pending == []
      ensures wasRunning && r.Ok? && fenced && old(stub.Idle()) ==> stub.Idle() && Still(stub.line)
      ensures r.Ok? && fenced && old(stub.Idle()) ==> stub.Idle() && stub.line.armed == old(stub.line.armed)
      ensures SameChange(old(stub.line), stub.line, AROUND)
      ensures wasRunning && r.Ok? ==>
        stub.commands == old(stub.commands) + [Heartbeat, Heartbeat] && stub.interrupts == old(stub.interrupts) + 1
      ensures r.Err? ==> stub.commands == old(stub.commands) + [Heartbeat] && stub.interrupts == old(stub.interrupts)
      ensures old(stub.events) <= stub.events && old(stub.givenUp) <= stub.givenUp
      ensures old(stub.Idle()) && replies > 0 && stub.givenUp == old(stub.givenUp) ==> r.Ok? && fenced
    {
      hide SameChange;
      wasRunning := state == ConnectedRunning;
      fenced := true;
      ghost var start := stub.line;
      SameAtFirst(start, AROUND);
      if wasRunning {
        var alive := stub.ProbeResponsive();
        SameMore(start, stub.line, {Heartbeat}, AROUND);
        if !alive {
          state := Error;
          return wasRunning, Err(Wedged), false;
        }
        ghost var probed := stub.line;
        fenced := Quiesce(waits, polls, replies);
        SameTwice(start, probed, stub.line, AROUND, AROUND);
        ghost var quiet := stub.line;
        var stale := stub.DrainStopReplies(polls);
        SameMore(quiet, stub.line, {}, AROUND);
        SameTwice(start, quiet, stub.line, AROUND, AROUND);
        MarkPaused();
      }
      r := Ok(());
    }

    /** Leaving `_safe_to_modify`, also when the block raised.  After a fence the CPU has been told to go on and
        nothing else: it runs, unless a breakpoint has fired since. */
    method ExitModify(wasRunning: bool, polls: nat) returns (r: Outcome<()>)
      modifies this`state, stub
      ensures !wasRunning ==> r.Ok? && state == old(state) && unchanged(stub)
      ensures r.Err? ==> r.error == TimedOut && state == old(state)
      ensures wasRunning && r.Ok? ==> state == if old(state) == ConnectedPaused then ConnectedRunning else old(state)
      ensures wasRunning && r.Ok? && old(stub.Idle()) ==>
        stub.Idle() && stub.line.armed == old(stub.line.armed)
        && stub.line.toStub == [] && |stub.line.toClient| == (if stub.line.running then 0 else 1)
      ensures wasRunning && r.Ok? && old(stub.Idle() && Still(stub.line)) ==> stub.pending == []
      ensures SameChange(old(stub.line), stub.line, AROUND)
      ensures wasRunning ==> stub.commands == old(stub.commands) + [Continue] && stub.interrupts == old(stub.interrupts)
      ensures wasRunning && r.Ok? && old(stub.Idle()) ==>
        Obeyed(Continue, stub.line.running, old(Still(stub.line)), old(stub.events), stub.events)
      ensures old(stub.events) <= stub.events
      ensures stub.givenUp == old(stub.givenUp) + if r.Err? then 1 else 0
    {
      hide SameChange;
      r := Ok(());
      ghost var start := stub.line;
      SameAtFirst(start, AROUND);
      if wasRunning {
        var stale := stub.DrainStopReplies(polls);
        SameMore(start, stub.line, {}, AROUND);
        ghost var drained, before := stub.line, stub.events;
        r := stub.ContinueAsync();
        if r.Ok? && old(stub.Idle()) {
          ObeyedSince(Continue, stub.line.running, Still(drained), old(stub.events), before, stub.events);
        }
        SameMore(drained, stub.line, {Continue}, AROUND);
        SameTwice(start, drained, stub.line, AROUND, AROUND);
        if r.Ok? {
          MarkRunning();
        }
      }
    }

    /** `_safe_to_modify` around one change of the breakpoints, `None` for a body that raises before it asks.
        `r` is how entering and leaving went, `answer` what the stub said; `settled`: the fence held and the
        CPU was resumed.  However it ends, and whatever the stub does later, the change has been made or not,
        and no other one. */
    method Modify(op: Option<Op>, waits: nat, polls: nat, replies: nat)
      returns (r: Outcome<()>, answer: Outcome<()>, settled: bool)
      requires op.Some? ==> Changes(op.value)
      modifies this`state, stub
      ensures r.Err? ==> r.error == TimedOut || (r.error == Wedged && answer == Err(Wedged))
      ensures answer.Ok? ==> op.Some?
      ensures r.Ok? && answer.Err? ==>
        if op.Some? then answer.error == TimedOut || answer.error == Refused else answer.error == BadArgument
      ensures (settled ==> r.Ok?) && (r.Ok? ==> state == old(state))
      ensures old(state) != ConnectedRunning ==> settled
      ensures settled && old(stub.Idle()) && answer.Ok? ==>
        stub.Idle() && stub.line.armed == Changed(op.value, old(stub.line.armed))
      ensures settled && old(stub.Idle()) && (answer == Err(Refused) || answer == Err(BadArgument)) ==>
        stub.Idle() && stub.line.armed == old(stub.line.armed)
      ensures settled && old(state) == ConnectedRunning && old(stub.Idle()) && answer != Err(TimedOut) ==>
        stub.pending == [] && stub.line.toStub == [] && |stub.line.toClient| == (if stub.line.running then 0 else 1)
      ensures old(stub.Idle()) ==>
        if op.Some? then OnlyBy(stub.line, op.value, old(stub.line.armed)) else stub.line.armed == old(stub.line.armed)
      ensures stub.commands
        == old(stub.commands) + Written(op, old(state) == ConnectedRunning, !(r.Err? && r.error == Wedged))
      ensures stub.interrupts
        == old(stub.interrupts) + if old(state) == ConnectedRunning && r != Err(Wedged) then 1 else 0
      ensures settled && old(state) == ConnectedRunning && old(stub.Idle()) && answer != Err(TimedOut) ==>
        Obeyed(Continue, stub.line.running, false, old(stub.events), stub.events)
      ensures old(state) != ConnectedRunning ==> stub.taken == old(stub.taken)
      ensures old(stub.events) <= stub.events
      ensures old(state) != ConnectedRunning && op.Some? ==> Heard(answer, old(stub.delivered), stub.delivered)
      ensures old(stub.givenUp) <= stub.givenUp
      ensures old(stub.Idle()) && replies > 0 && stub.givenUp == old(stub.givenUp) ==>
        settled && answer != Err(TimedOut)
    {
      hide SameChange, OnlyBy, Obeyed;
      ghost var start, one := stub.line, if op.Some? then op.value else Heartbeat;
      ghost var all := AROUND + {one};
      var wasRunning, entered, fenced := EnterModify(waits, polls, replies);
      SameMore(start, stub.line, AROUND, all);
      if old(stub.Idle()) {
        OnlyChange(start, stub.line, one);
        ArmedOnlyBy(stub.line, one, start.armed);
      }
      if entered.Err? {
        return Err(entered.error), Err(Wedged), false;
      }
      ghost var inside := stub.line;
      if op.Some? {
        answer := stub.SetBreak(op.value);
        SameMore(inside, stub.line, {one}, all);
      } else {
        answer := Err(BadArgument);
        SameAtFirst(inside, all);
      }
      SameTwice(start, inside, stub.line, all, all);
      ghost var asked, before := stub.line, stub.events;
      r := ExitModify(wasRunning, polls);
      settled := fenced && r.Ok?;
      if settled && wasRunning && old(stub.Idle()) && answer != Err(TimedOut) {
        ObeyedSince(Continue, stub.line.running, Still(asked), old(stub.events), before, stub.events);
      }
      SameMore(asked, stub.line, AROUND, all);
      SameTwice(start, asked, stub.line, all, all);
      if old(stub.Idle()) {
        OnlyChange(start, stub.line, one);
        ArmedOnlyBy(stub.line, one, start.armed);
      }
    }

    // ---- breakpoints ----

    /** `add_breakpoint` and `add_watchpoint`; `None` is an invalid watchpoint kind, which raises inside
        the protected block.  `settled`: the fence held and the CPU was resumed.  However it ends, and whatever
        the stub does later, the place is armed or nothing has changed there; a call that raises leaves the
        registry as it was, so it is at most a lost addition. */
    method Add(place: Option<Place>, waits: nat, polls: nat, replies: nat)
      returns (r: Outcome<nat>, settled: bool)
      requires Valid()
      modifies this`state, this`breakpoints, this`nextId, stub
      ensures Valid()
      ensures r.Ok? ==> place.Some? && r.value == old(nextId) && nextId == old(nextId) + 1
      ensures r.Ok? ==> breakpoints == old(breakpoints) + [Spec(r.value, place.value, false, [], "", [])]
      ensures r.Err? ==> breakpoints == old(breakpoints) && nextId == old(nextId)
      ensures settled && old(stub.Idle()) && r.Ok? ==>
        stub.Idle() && Books() == After(old(Books()), Added(place.value))
      ensures settled && old(stub.Idle()) && (r == Err(Refused) || r == Err(BadArgument)) ==>
        stub.Idle() && Books() == After(old(Books()), AddRefused)
      ensures settled || r.Ok? ==> state == old(state)
      ensures old(state) != ConnectedRunning ==> settled
      ensures settled && old(state) == ConnectedRunning && old(stub.Idle()) && r != Err(TimedOut) ==>
        stub.pending == [] && stub.line.toStub == [] && |stub.line.toClient| == (if stub.line.running then 0 else 1)
      ensures old(stub.Idle()) && place.None? ==> r.Err? && Books() == After(old(Books()), AddRefused)
      ensures old(stub.Idle()) && place.Some? ==> OnlyBy(stub.line, Arm(place.value), old(stub.line.armed))
      ensures old(stub.Idle()) && place.Some? && r.Err? ==>
        Books() == After(old(Books()), AddLost(place.value, false))
        || Books() == After(old(Books()), AddLost(place.value, true))
      ensures old(stub.Idle()) && r.Ok? ==>
        Books() == After(old(Books()), AddUnsure(place.value, false))
        || Books() == After(old(Books()), AddUnsure(place.value, true))
      ensures var op := if place.Some? then Some(Arm(place.value)) else None;
        stub.commands == old(stub.commands) + Written(op, old(state) == ConnectedRunning, r != Err(Wedged))
      ensures settled && old(state) == ConnectedRunning && old(stub.Idle()) && r != Err(TimedOut) ==>
        Obeyed(Continue, stub.line.running, false, old(stub.events), stub.events)
      ensures old(state) != ConnectedRunning ==> stub.taken == old(stub.taken)
      ensures old(state) != ConnectedRunning && place.Some? ==> Heard(r, old(stub.delivered), stub.delivered)
      ensures old(stub.givenUp) <= stub.givenUp
      ensures old(stub.Idle()) && replies > 0 && stub.givenUp == old(stub.givenUp) ==>
        settled && (r.Ok? || r.error == if place.Some? then Refused else BadArgument)
    {
      hide OnlyBy, Obeyed, Heard;
      var left: Outcome<()>, answer: Outcome<()>;
      left, answer, settled := Modify(if place.Some? then Some(Arm(place.value)) else None, waits, polls, replies);
      if old(stub.Idle()) && place.Some? {
        ArmedOnlyBy(stub.line, Arm(place.value), old(stub.line.armed));
      }
      if left.Err? {
        return Err(left.error), settled;
      }
      if old(state) != ConnectedRunning && place.Some? {
        HeardAlso<(), nat>(answer, if answer.Ok? then Ok(nextId) else Err(answer.error), old(stub.delivered),
          stub.delivered);
      }
      if answer.Err? {
        return Err(answer.error), settled;
      }
      var id := nextId;
      nextId := nextId + 1;
      breakpoints := breakpoints + [NewSpec(id, place.value)];
      r := Ok(id);
    }

    /** `remove`: the registry entry goes first, whatever the stub says afterwards.  `answer` is what
        the stub said to the `z` packet.  However it ends, it is at most a lost removal. */
    method Remove(id: nat, waits: nat, polls: nat, replies: nat)
      returns (r: Outcome<bool>, answer: Outcome<()>, settled: bool)
      requires Valid()
      modifies this`state, this`breakpoints, stub
      ensures Valid() && nextId == old(nextId)
      ensures var i := Find(old(breakpoints), id);
        breakpoints == if i == |old(breakpoints)| then old(breakpoints) else Without(old(breakpoints), i)
      ensures r.Ok? ==> (r.value <==> Find(old(breakpoints), id) < |old(breakpoints)|)
      ensures r.Err? ==> r.error == Wedged
      ensures r == Ok(false) ==> unchanged(this) && unchanged(stub)
      ensures settled && old(stub.Idle()) && answer.Ok? ==>
        stub.Idle() && Books() == After(old(Books()), Removed(id))
      ensures settled && old(stub.Idle()) && answer == Err(Refused) ==>
        stub.Idle() && Books() == After(old(Books()), RemoveRefused(id))
      ensures settled ==> state == old(state)
      ensures old(state) != ConnectedRunning ==> settled
      ensures settled && old(state) == ConnectedRunning && old(stub.Idle()) && r == Ok(true) ==>
        answer == Err(TimedOut) || (stub.pending == [] && stub.line.toStub == []
          && |stub.line.toClient| == if stub.line.running then 0 else 1)
      ensures old(stub.Idle()) && Find(old(breakpoints), id) < |old(breakpoints)| ==>
        OnlyBy(stub.line, Disarm(old(breakpoints)[Find(old(breakpoints), id)].place), old(stub.line.armed))
      ensures old(stub.Idle()) ==>
        Books() == After(old(Books()), RemoveLost(id, false)) || Books() == After(old(Books()), RemoveLost(id, true))
      ensures Find(old(breakpoints), id) < |old(breakpoints)| ==>
        var op := Disarm(old(breakpoints)[Find(old(breakpoints), id)].place);
        stub.commands == old(stub.commands) + Written(Some(op), old(state) == ConnectedRunning, r != Err(Wedged))
      ensures settled && old(state) == ConnectedRunning && old(stub.Idle()) && r == Ok(true) ==>
        answer == Err(TimedOut) || Obeyed(Continue, stub.line.running, false, old(stub.events), stub.events)
      ensures old(state) != ConnectedRunning ==> stub.taken == old(stub.taken)
      ensures old(state) != ConnectedRunning && Find(old(breakpoints), id) < |old(breakpoints)| ==>
        Heard(answer, old(stub.delivered), stub.delivered)
      ensures old(stub.givenUp) <= stub.givenUp
      ensures old(stub.Idle()) && replies > 0 && stub.givenUp == old(stub.givenUp) ==>
        settled && r.Ok? && (answer.Ok? || answer.error == Refused)
    {
      hide OnlyBy, Obeyed, Heard;
      settled, answer := true, Ok(());
      var i := Find(breakpoints, id);
      if i == |breakpoints| {
        return Ok(false), answer, settled;
      }
      var place := breakpoints[i].place;
      WithoutNumbered(breakpoints, i, nextId);
      breakpoints := Without(breakpoints, i);
      var left: Outcome<()>;
      left, answer, settled := Modify(Some(Disarm(place)), waits, polls, replies);
      if old(stub.Idle()) {
        ArmedOnlyBy(stub.line, Disarm(place), old(stub.line.armed));
      }
      r := if left == Err(Wedged) then Err(Wedged) else Ok(true);
    }

    /** One call, and what became of it; it is `answered` if the stub answered its command, and the fence held.
        Starting on an idle line it ends in one of the outcomes of `Call`, whatever happens. */
    method Change(edit: Edit, waits: nat, polls: nat, replies: nat) returns (answered: bool, ghost outcome: Call)
      requires Valid()
      modifies this`state, this`breakpoints, this`nextId, stub
      ensures Valid() && (answered ==> state == old(state))
      ensures old(stub.Idle()) ==> OutcomeOf(edit, outcome) && Books() == After(old(Books()), outcome)
      ensures old(stub.Idle()) && answered ==> outcome.Answered() && stub.Idle()
      ensures old(stub.Idle()) && !answered ==> !outcome.Answered() || edit == AddAt(None)
      ensures old(state) != ConnectedRunning ==> !outcome.AddUnsure?
      ensures old(stub.givenUp) <= stub.givenUp
      ensures old(stub.Idle()) && replies > 0 && stub.givenUp == old(stub.givenUp) ==> answered
    {
      hide After, OnlyBy;
      ghost var books, idle := Books(), stub.Idle();
      match edit
      case AddAt(place) =>
        var r, settled := Add(place, waits, polls, replies);
        answered := settled && (r.Ok? || r.error == Refused || r.error == BadArgument);
        outcome := if place.None? || (answered && r.Err?) then AddRefused
                   else if answered then Added(place.value)
                   else if r.Ok? then AddUnsure(place.value, Books() == After(books, AddUnsure(place.value, true)))
                   else AddLost(place.value, Books() == After(books, AddLost(place.value, true)));
      case RemoveId(id) =>
        var r, answer, settled := Remove(id, waits, polls, replies);
        answered := settled && (answer.Ok? || answer.error == Refused);
        outcome := if !answered then RemoveLost(id, Books() == After(books, RemoveLost(id, true)))
                   else if answer.Ok? then Removed(id) else RemoveRefused(id);
    }

    /** Additions and removals one after the other, up to the first that is not answered.  The registry and the
        stub go through a run of `Call`s of which only the last may be in doubt, so that call decides whether every
        registered spec is armed.  From a session that is not RUNNING it always is, as no reply is unsure. */
    method ChangeAll(edits: seq<Edit>, waits: nat, polls: nat, replies: nat)
      returns (answered: bool, ghost outcomes: seq<Call>)
      requires Valid()
      modifies this`state, this`breakpoints, this`nextId, stub
      ensures Valid()
      ensures old(stub.Idle()) ==> Outcomes(edits, outcomes) && Books() == AfterAll(old(Books()), outcomes)
      ensures old(stub.Idle()) ==>
        if answered then |outcomes| == |edits| && stub.Idle() && state == old(state)
        else outcomes != [] && (!outcomes[|outcomes| - 1].Answered() || edits[|outcomes| - 1] == AddAt(None))
      ensures old(state) != ConnectedRunning ==> forall c <- outcomes :: !c.AddUnsure?
      ensures old(stub.Idle()) && replies > 0 && stub.givenUp == old(stub.givenUp) ==> answered
      ensures old(stub.Idle()) && Agrees(old(Books())) && NoSharing(old(Books()), outcomes) ==>
        (Agrees(Books()) <==>
          outcomes == [] || Sound(AfterAll(old(Books()), outcomes[..|outcomes| - 1]), outcomes[|outcomes| - 1]))
        && (old(state) != ConnectedRunning ==> Agrees(Books()))
    {
      hide After, OutcomeOf, Agrees, NoSharing, Sound;
      ghost var books, idle := Books(), stub.Idle();
      answered, outcomes := true, [];
      for n := 0 to |edits|
        invariant Valid() && |outcomes| == n && state == old(state) && (idle ==> stub.Idle())
        invariant idle ==> Outcomes(edits, outcomes) && Books() == AfterAll(books, outcomes)
        invariant idle ==> forall c <- outcomes :: c.Answered()
        invariant old(state) != ConnectedRunning ==> forall c <- outcomes :: !c.AddUnsure?
        invariant answered && old(stub.givenUp) <= stub.givenUp
      {
        ghost var outcome: Call;
        answered, outcome := Change(edits[n], waits, polls, replies);
        AfterSnoc(books, outcomes, outcome);
        outcomes := outcomes + [outcome];
        if !answered {
          break;
        }
      }
      if idle && Agrees(books) && NoSharing(books, outcomes) && outcomes != [] {
        LastDecides(books, outcomes);
      }
    }

    /** `remove_all`: every id that was registered, one after the other. */
    method RemoveAll(waits: nat, polls: nat, replies: nat) returns (r: Outcome<nat>)
      requires Valid()
      modifies this`state, this`breakpoints, stub
      ensures Valid() && nextId == old(nextId)
      ensures r.Ok? ==> breakpoints == [] && r.value == |old(breakpoints)|
      ensures r.Err? ==> r.error == Wedged
      ensures r.Err? ==> exists n :: 0 < n <= |old(breakpoints)| && breakpoints == old(breakpoints)[n..]
      ensures old(stub.commands) <= stub.commands
      ensures old(stub.Idle()) && replies > 0 && stub.givenUp == old(stub.givenUp) ==> r.Ok?
      ensures r.Ok? ==> Asked(stub.commands[|old(stub.commands)|..]) == Disarms(old(breakpoints))
    {
      var all := breakpoints;
      ghost var before := stub.commands;
      assert stub.commands[|before|..] == [];
      for n := 0 to |all|
        invariant Valid() && nextId == old(nextId) && all == old(breakpoints)
        invariant breakpoints == all[n..]
        invariant before <= stub.commands && Asked(stub.commands[|before|..]) == Disarms(all[..n])
        invariant old(stub.givenUp) <= stub.givenUp
        invariant old(stub.Idle()) && replies > 0 && stub.givenUp == old(stub.givenUp) ==> stub.Idle()
      {
        ghost var written, running := stub.commands, state == ConnectedRunning;
        assert breakpoints[0] == all[n] && Find(breakpoints, all[n].id) == 0;
        assert Without(breakpoints, 0) == all[n + 1..];
        var removed, answer, settled := Remove(all[n].id, waits, polls, replies);
        if removed.Err? {
          return Err(removed.error);
        }
        OneMoreDisarm(before, written, stub.commands, all, n, running);
      }
      assert all[..|all|] == all;
      r := Ok(|all|);
    }

    // ---- execution ----

    /** `wait_for_hit`: refused unless RUNNING and without a live watcher. */
    method WaitForHit() returns (r: Outcome<Item>)
      modifies this`state, stub
      ensures old(watcherAlive) || old(state) != ConnectedRunning ==>
        r == Err(WrongState) && state == old(state) && unchanged(stub)
      ensures r.Ok? ==> state == ConnectedPaused
      ensures r.Ok? && old(stub.pending) != [] ==>
        r.value == old(stub.pending)[0] && stub.pending == old(stub.pending)[1..]
      ensures r.Ok? && old(stub.pending) == [] ==>
        exists l :: Later(old(stub.line), l) && Connection.NextOn(l, r.value, stub.line)
      ensures r.Err? ==> state == old(state)
      ensures old(stub.Idle()) ==> stub.Idle() && stub.line.armed == old(stub.line.armed) && (r.Ok? ==> r.value.Stop?)
      ensures stub.commands == old(stub.commands) && stub.interrupts == old(stub.interrupts)
      ensures stub.taken == if r.Ok? then old(stub.taken) + [r.value] else old(stub.taken)
      ensures r == Err(TimedOut) ==> old(stub.pending) == [] && NextPacket(stub.line.toClient) == |stub.line.toClient|
    {
      if watcherAlive || state != ConnectedRunning {
        return Err(WrongState);
      }
      r := stub.WaitForStop();
      if r.Ok? {
        MarkPaused();
      }
    }

    /** `pause`: interrupt and wait, once more after a timeout.  When it takes a stop the CPU is halted
        or has an interrupt on its way.  A session already paused only has its PC read. */
    method Pause(polls: nat) returns (r: Outcome<PauseResult>)
      modifies this`state, stub
      ensures old(watcherAlive) ==> r == Err(WrongState) && state == old(state) && unchanged(stub)
      ensures r.Ok? ==> (r.value.Already? <==> old(state) == ConnectedPaused)
      ensures r.Ok? ==> state == if old(state) == ConnectedRunning then ConnectedPaused else old(state)
      ensures r.Err? ==> state == if r.error == Wedged then Error else old(state)
      ensures r.Ok? && old(stub.Idle()) ==> stub.Idle() && stub.line.armed == old(stub.line.armed)
      ensures r == Err(TimedOut) && old(state) != ConnectedPaused && old(stub.Idle()) ==>
        stub.Idle() && stub.line.armed == old(stub.line.armed)
      ensures r.Ok? && r.value.Taken? && old(stub.Idle()) ==> r.value.stop.Stop? && Halting(stub.line)
      ensures r.Ok? && r.value.Taken? ==> stub.taken != [] && stub.taken[|stub.taken| - 1] == r.value.stop
      ensures !old(watcherAlive) && old(state) != ConnectedPaused && r != Err(Wedged) ==>
        old(stub.taken) + old(stub.pending) <= stub.taken
        && (r.Ok? ==> |stub.taken| > |old(stub.taken)| + |old(stub.pending)|)
      ensures r.Ok? && r.value.Already? ==>
        stub.delivered != [] && r.value.pc == TextOf(stub.delivered[|stub.delivered| - 1].got)
      ensures !old(watcherAlive) ==>
        stub.commands == old(stub.commands) + [if old(state) == ConnectedPaused then Query("p40") else Heartbeat]
      ensures !old(watcherAlive) ==>
        var n := stub.interrupts - old(stub.interrupts);
        if old(state) == ConnectedPaused || r == Err(Wedged) then n == 0 else 1 <= n <= 2
      ensures r == Err(TimedOut) && old(state) != ConnectedPaused ==>
        stub.interrupts == old(stub.interrupts) + 2 && NextPacket(stub.line.toClient) == |stub.line.toClient|
      ensures old(stub.Idle()) && r == Err(Wedged) ==> stub.givenUp > old(stub.givenUp)
    {
      if watcherAlive {
        return Err(WrongState);
      }
      if state == ConnectedPaused {
        var pc := stub.Cmd(Query("p40"));
        return if pc.Ok? then Ok(Already(pc.value)) else Err(TimedOut);
      }
      var alive := stub.ProbeResponsive();
      if !alive {
        state := Error;
        return Err(Wedged);
      }
      var stale := stub.DrainStopReplies(polls);
      var attempt := 0;
      ghost var drained := stub.taken;
      r := Err(TimedOut);
      while attempt < 2 && r.Err?
        invariant state == old(state) && (if r.Ok? then r.value.Taken? else r.error == TimedOut)
        invariant stub.commands == old(stub.commands) + [Heartbeat] && attempt <= 2
        invariant stub.interrupts == old(stub.interrupts) + attempt && (r.Ok? ==> attempt > 0)
        invariant stub.taken == drained + if r.Ok? then [r.value.stop] else []
        invariant attempt > 0 && r.Err? ==> NextPacket(stub.line.toClient) == |stub.line.toClient|
        invariant old(stub.Idle()) ==> stub.Idle() && stub.line.armed == old(stub.line.armed)
        invariant old(stub.Idle()) && r.Ok? ==> r.value.stop.Stop? && Halting(stub.line)
      {
        stub.Interrupt();
        var stop := stub.WaitForStop();
        r := if stop.Ok? then Ok(Taken(stop.value)) else Err(TimedOut);
        attempt := attempt + 1;
      }
      if r.Ok? {
        MarkPaused();
      }
    }

    /** `resume`.  Once acknowledged, the CPU runs, unless a breakpoint has fired since. */
    method Resume() returns (r: Outcome<()>)
      modifies this`state, stub
      ensures old(watcherAlive) ==> r == Err(WrongState) && state == old(state) && unchanged(stub)
      ensures !old(watcherAlive) && old(state) == ConnectedRunning ==> r.Ok? && state == old(state) && unchanged(stub)
      ensures r.Ok? && old(state) == ConnectedPaused ==> state == ConnectedRunning
      ensures r.Ok? && old(state) != ConnectedRunning && old(stub.Idle()) ==>
        stub.Idle() && stub.line.armed == old(stub.line.armed)
        && stub.line.toStub == [] && |stub.line.toClient| == (if stub.line.running then 0 else 1)
      ensures r.Err? ==> state == old(state)
      ensures r == Err(TimedOut) ==> stub.givenUp == old(stub.givenUp) + 1 && stub.line.toClient == []
      ensures r.Err? ==> r.error == if old(watcherAlive) then WrongState else TimedOut
      ensures r.Ok? ==> stub.givenUp == old(stub.givenUp)
      ensures !old(watcherAlive) && old(state) != ConnectedRunning ==>
        stub.commands == old(stub.commands) + [Continue] && stub.taken == old(stub.taken)
      ensures r.Ok? && old(state) != ConnectedRunning && old(stub.Idle()) ==>
        Obeyed(Continue, stub.line.running, old(Still(stub.line)), old(stub.events), stub.events)
    {
      hide Obeyed;
      if watcherAlive {
        return Err(WrongState);
      }
      if state == ConnectedRunning {
        return Ok(());
      }
      r := stub.ContinueAsync();
      if r.Ok? {
        MarkRunning();
      }
    }

    /** `step`: afterwards the CPU is halted; the stop returned is the step's own when none was queued
        or in flight before. */
    method StepInstruction() returns (r: Outcome<Item>)
      modifies this`state, stub
      ensures old(watcherAlive) ==> r == Err(WrongState) && state == old(state) && unchanged(stub)
      ensures r.Ok? ==> state == if old(state) == ConnectedRunning then ConnectedPaused else old(state)
      ensures r.Err? ==> state == old(state)
      ensures r.Ok? && old(stub.Idle()) ==> stub.Idle() && r.value.Stop? && !stub.line.running
      ensures r.Ok? && old(stub.Idle() && Still(stub.line) && stub.pending == []) ==>
        Still(stub.line) && stub.pending == []
      ensures !old(watcherAlive) ==> stub.commands == old(stub.commands) + [StepOne]
      ensures !old(watcherAlive) ==> stub.taken == if r.Ok? then old(stub.taken) + [r.value] else old(stub.taken)
      ensures r.Ok? && old(stub.Idle()) ==>
        Obeyed(StepOne, false, old(Still(stub.line)), old(stub.events), stub.events)
    {
      hide Obeyed;
      if watcherAlive {
        return Err(WrongState);
      }
      r := stub.Step();
      if r.Ok? {
        MarkPaused();
      }
    }

    // ---- temporary breakpoints ----

    /** The program counter of a stop reply that carries it; else it is read. */
    method Locate(raw: Item) returns (r: Outcome<Landing>, complete: bool)
      modifies stub
      ensures var pc := StopReply.Parse(TextOf(raw)).Pc();
        if pc.Some? then r == Ok(Carried(raw, pc.value)) && complete && unchanged(stub)
        else stub.commands == old(stub.commands) + [Query("p40")] && (r.Ok? ==> ReadBackNow(r.value, raw))
      ensures stub.taken == old(stub.taken)
      ensures complete && old(stub.Idle()) ==> stub.Idle() && stub.line.armed == old(stub.line.armed)
      ensures r.Ok? ==> complete
      ensures old(stub.givenUp) <= stub.givenUp && (stub.givenUp == old(stub.givenUp) ==> complete)
      ensures r.Err? ==> r.error == if complete then NotFound else TimedOut
      ensures r == Err(NotFound) ==>
        stub.delivered != [] && var text := TextOf(stub.delivered[|stub.delivered| - 1].got);
        text == "" || text[0] == 'E' || !FromHex(text)
    {
      var parsed := StopReply.ParseStopReply(TextOf(raw));
      if parsed.Pc().Some? {
        return Ok(Carried(raw, parsed.Pc().value)), true;
      }
      var text := stub.Cmd(Query("p40"));
      if text.Err? {
        return Err(text.error), false;
      }
      return if HasValue(text.value) then Ok(ReadBack(raw, text.value)) else Err(NotFound), true;
    }

    /** The landing is the reply delivered last, and it has a value. */
    ghost predicate ReadBackNow(l: Landing, raw: Item)
      reads stub
    {
      && stub.delivered != [] && l == ReadBack(raw, TextOf(stub.delivered[|stub.delivered| - 1].got))
      && l.text != "" && l.text[0] != 'E' && FromHex(l.text)
    }

    /** Resume, wait for a stop, and read the program counter when the stop does not carry it.
        `complete`: no command of it was left half done. */
    method RunAndWait() returns (r: Outcome<Landing>, complete: bool)
      modifies this`state, stub
      ensures complete && old(stub.Idle()) ==> stub.Idle() && stub.line.armed == old(stub.line.armed)
      ensures r.Ok? ==> state != ConnectedRunning && stub.taken == old(stub.taken) + [r.value.raw]
      ensures r.Ok? ==> LandingOf(r.value)
      ensures r.Ok? ==> stub.commands == old(stub.commands) + RunOn(old(state) == ConnectedRunning, r.value)
      ensures old(stub.commands) <= stub.commands && old(stub.givenUp) <= stub.givenUp
      ensures !old(watcherAlive) && stub.givenUp == old(stub.givenUp) ==>
        complete && (r.Ok? || r.error == NotFound || r.error == TimedOut)
        && (r == Err(TimedOut) ==> NextPacket(stub.line.toClient) == |stub.line.toClient|)
    {
      var resumed := Resume();
      if resumed.Err? {
        return Err(resumed.error), false;
      }
      var stop := stub.WaitForStop();
      if stop.Err? {
        return Err(TimedOut), true;
      }
      MarkPaused();
      r, complete := Locate(stop.value);
    }

    /** `run_until`, and the part that `step_over` and `step_out` share with it: arm, resume, wait,
        always remove again.  Whether it returns, times out or raises, the registry is what it was, and the
        last thing asked for is the removal; and when both changes settled, the stub has lost exactly the
        temporary place.  What it returns is the stop taken last, after the CPU was told to go on once. */
    method RunTo(addr: int, waits: nat, polls: nat, replies: nat) returns (r: Outcome<Landing>, settled: bool)
      requires Valid()
      modifies this`state, this`breakpoints, this`nextId, stub
      ensures Valid() && breakpoints == old(breakpoints)
      ensures nextId == old(nextId) || nextId == old(nextId) + 1
      ensures settled && old(stub.Idle()) ==>
        stub.Idle() && stub.line.armed == old(stub.line.armed) - {Place(SwBp, addr, 4)}
      ensures r.Ok? ==>
        LandingOf(r.value) && stub.taken != [] && stub.taken[|stub.taken| - 1] == r.value.raw
      ensures r.Ok? ==>
        stub.commands == old(stub.commands) + RunCommands(Place(SwBp, addr, 4), old(state) == ConnectedRunning, r.value)
      ensures !old(watcherAlive) && old(stub.Idle()) && replies > 0 && stub.givenUp == old(stub.givenUp) ==>
        r.Ok? || r.error == Refused || r.error == NotFound || r.error == TimedOut
      ensures nextId == old(nextId) + 1 ==>
        exists running, entered :: EndsIn(stub.commands, Written(Some(Disarm(Place(SwBp, addr, 4))), running, entered))
    {
      hide OnlyBy, LandingOf, Obeyed, Written, RunOn, RunCommands, EndsIn, WellNumbered, Without;
      var place := Place(SwBp, addr, 4);
      if watcherAlive {
        return Err(WrongState), false;
      }
      var added, armed := Add(Some(place), waits, polls, replies);
      if added.Err? {
        return Err(added.error), false;
      }
      var complete: bool;
      r, complete := RunAndWait();
      NewIsLast(old(breakpoints), NewSpec(added.value, place));
      ghost var running, before := state == ConnectedRunning, stub.commands;
      var removed, answer, gone := Remove(added.value, waits, polls, replies);
      EndsInLast(before, Written(Some(Disarm(place)), running, removed != Err(Wedged)));
      if r.Ok? {
        RunIs(old(stub.commands), place, old(state) == ConnectedRunning, r.value, removed != Err(Wedged));
      }
      settled := armed && complete && gone && answer.Ok?;
    }
  }

  predicate EndsIn(commands: seq<Op>, last: seq<Op>) {
    |last| <= |commands| && commands[|commands| - |last|..] == last
  }

  lemma EndsInLast(commands: seq<Op>, last: seq<Op>)
    ensures EndsIn(commands + last, last)
  {
  }

  lemma RunIs(start: seq<Op>, place: Place, running: bool, l: Landing, entered: bool)
    ensures start + Written(Some(Arm(place)), running, true) + RunOn(running, l)
      + Written(Some(Disarm(place)), false, entered) == start + RunCommands(place, running, l)
  {
  }

  /** The landing is the one its stop reply carries, or it was read because that carries none. */
  predicate LandingOf(l: Landing) {
    var pc := StopReply.Parse(TextOf(l.raw)).Pc();
    match l
    case Carried(_, at) => pc == Some(at)
    case ReadBack(_, text) => pc.None? && HasValue(text)
  }

  /** The commands of resuming, unless the CPU runs already, and of reading the program counter, unless the stop
      carries it. */
  function RunOn(running: bool, l: Landing): seq<Op> {
    (if running then [] else [Continue]) + if l.Carried? then [] else [Query("p40")]
  }

  /** The commands of a whole call that returns: arm, go on once, remove. */
  function RunCommands(place: Place, running: bool, l: Landing): seq<Op> {
    Written(Some(Arm(place)), running, true) + RunOn(running, l) + [Disarm(place)]
  }

  /** The spec just registered is found at the end, and taking it out gives the old registry back. */
  lemma {:induction false} NewIsLast(specs: seq<Spec>, s: Spec)
    requires WellNumbered(specs, s.id)
    ensures Find(specs + [s], s.id) == |specs| && Without(specs + [s], |specs|) == specs
  {
    var more := specs + [s];
    assert more[|specs|] == s;
    assert more[..|specs|] + more[|specs| + 1..] == specs;
  }

  /** After a settled temporary breakpoint the registry still agrees with the stub if and only if no
      live spec was at the temporary place: that spec stays registered but is disarmed. */
  lemma TemporaryAgrees(b: Books, place: Place)
    requires Agrees(b)
    ensures Agrees(b.(armed := b.armed - {place})) <==> place !in Places(b.specs)
  {
  }
}
